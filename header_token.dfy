/** Extraction of the bearer token from the `authorization` header, as the
    expression `authHeader && authHeader.split(' ')[1]` computes it. */
module HeaderToken {
  import opened Wrappers

  const Space: char := ' '

  /** JavaScript's `s.split(sep)` for a one-character separator: the pieces
      between consecutive separators, in order; never empty, and no piece
      contains the separator. */
  function Split(s: string, sep: char): (r: seq<string>)
    ensures |r| >= 1
    ensures forall k :: 0 <= k < |r| ==> sep !in r[k]
    decreases |s|
  {
    if s == [] then [[]]
    else
      var rest := Split(s[1..], sep);
      if s[0] == sep then [[]] + rest
      else [[s[0]] + rest[0]] + rest[1..]
  }

  /** JavaScript's `parts.join(sep)`. */
  function Join(parts: seq<string>, sep: char): string
    decreases |parts|
  {
    if |parts| == 0 then []
    else if |parts| == 1 then parts[0]
    else parts[0] + [sep] + Join(parts[1..], sep)
  }

  /** Joining the pieces again gives back the header. */
  lemma {:induction false} JoinSplit(s: string, sep: char)
    ensures Join(Split(s, sep), sep) == s
    decreases |s|
  {
    if s != [] {
      var rest := Split(s[1..], sep);
      JoinSplit(s[1..], sep);
      if s[0] == sep {
        assert ([[]] + rest)[1..] == rest;
      } else if |rest| > 1 {
        assert ([[s[0]] + rest[0]] + rest[1..])[1..] == rest[1..];
        assert s == [s[0]] + s[1..];
      } else {
        assert s == [s[0]] + s[1..];
      }
    }
  }

  /** A text without a separator is a single piece. */
  lemma {:induction false} SplitNoSeparator(a: string, sep: char)
    requires sep !in a
    ensures Split(a, sep) == [a]
    decreases |a|
  {
    if a != [] {
      SplitNoSeparator(a[1..], sep);
      assert [a[0]] + a[1..] == a;
    }
  }

  /** Everything before the first separator is the first piece; the rest is
      split on its own. */
  lemma {:induction false} SplitAtFirst(a: string, sep: char, b: string)
    requires sep !in a
    ensures Split(a + [sep] + b, sep) == [a] + Split(b, sep)
    decreases |a|
  {
    var s := a + [sep] + b;
    if a == [] {
      assert s[1..] == b;
    } else {
      assert s[1..] == a[1..] + [sep] + b;
      SplitAtFirst(a[1..], sep, b);
      assert [a[0]] + a[1..] == a;
    }
  }

  /** Split is the only way of cutting a text into separator-free pieces that
      join back to it. */
  lemma {:induction false} SplitUnique(parts: seq<string>, sep: char)
    requires |parts| >= 1
    requires forall k :: 0 <= k < |parts| ==> sep !in parts[k]
    ensures Split(Join(parts, sep), sep) == parts
    decreases |parts|
  {
    if |parts| == 1 {
      SplitNoSeparator(parts[0], sep);
    } else {
      SplitUnique(parts[1..], sep);
      SplitAtFirst(parts[0], sep, Join(parts[1..], sep));
      assert [parts[0]] + parts[1..] == parts;
    }
  }

  /** The first index at or after `from` that holds `c`, or `|s|` if none. */
  function IndexOf(s: string, c: char, from: nat): (r: nat)
    requires from <= |s|
    ensures from <= r <= |s|
    ensures r < |s| ==> s[r] == c
    ensures forall k :: from <= k < r ==> s[k] != c
    decreases |s| - from
  {
    if from == |s| then from
    else if s[from] == c then from
    else IndexOf(s, c, from + 1)
  }

  /** The text between the first and the second space of the header (or up to
      its end when there is no second space); None without any space. */
  function SecondField(h: string): Option<string>
  {
    var i := IndexOf(h, Space, 0);
    if i == |h| then None
    else
      var j := IndexOf(h, Space, i + 1);
      Some(h[i + 1..j])
  }

  /** The JavaScript value of `authHeader && authHeader.split(' ')[1]`:
      an absent header stays `undefined`, an empty header stays `""` (it is
      falsy, so `&&` yields it unchanged), and otherwise the second piece of
      the split, `undefined` when there is none. The scheme word in front is
      never examined. */
  function ExtractToken(header: Option<string>): Option<string>
  {
    match header
    case None => None
    case Some(h) =>
      if h == [] then Some([])
      else
        var parts := Split(h, Space);
        if |parts| > 1 then Some(parts[1]) else None
  }

  /** JavaScript truthiness of the extracted value (`!token` is its negation). */
  predicate Truthy(v: Option<string>)
  {
    v.Some? && v.value != []
  }

  /** For a non-empty header, the extracted token is exactly the text between
      its first and second space. */
  lemma ExtractIsSecondField(h: string)
    requires h != []
    ensures ExtractToken(Some(h)) == SecondField(h)
  {
    var i := IndexOf(h, Space, 0);
    if i == |h| {
      assert Space !in h;
      SplitNoSeparator(h, Space);
    } else {
      var t := h[i + 1..];
      assert Space !in h[..i];
      assert h == h[..i] + [Space] + t;
      SplitAtFirst(h[..i], Space, t);
      var j := IndexOf(h, Space, i + 1);
      if j == |h| {
        assert Space !in t && t == h[i + 1..j];
        SplitNoSeparator(t, Space);
      } else {
        assert Space !in h[i + 1..j];
        assert t == h[i + 1..j] + [Space] + h[j + 1..];
        SplitAtFirst(h[i + 1..j], Space, h[j + 1..]);
      }
    }
  }

  /** A token is present exactly when the header has a space followed by a
      non-empty field; absent, empty, space-free headers and an empty second
      field (as in "Bearer ") all yield no token. */
  lemma TokenPresentIff(header: Option<string>)
    ensures Truthy(ExtractToken(header)) <==>
            header.Some? && SecondField(header.value).Some? && SecondField(header.value).value != []
    ensures Truthy(ExtractToken(header)) ==> ExtractToken(header) == SecondField(header.value)
  {
    if header.Some? {
      if header.value == [] {
        assert IndexOf(header.value, Space, 0) == 0;
      } else {
        ExtractIsSecondField(header.value);
      }
    }
  }

  /** Whatever word stands before the first space, the field after it is the
      token: "Basic abc" yields "abc" just as "Bearer abc" does. */
  lemma SchemeIgnored(scheme: string, token: string, rest: string)
    requires Space !in scheme && Space !in token
    requires rest == [] || rest[0] == Space
    ensures ExtractToken(Some(scheme + [Space] + token + rest)) == Some(token)
  {
    var h := scheme + [Space] + token + rest;
    assert h == scheme + [Space] + (token + rest);
    SplitAtFirst(scheme, Space, token + rest);
    if rest == [] {
      assert token + rest == token;
      SplitNoSeparator(token, Space);
    } else {
      assert token + rest == token + [Space] + rest[1..];
      SplitAtFirst(token, Space, rest[1..]);
    }
  }

  /** "Bearer " (scheme and an empty token) yields no token. */
  lemma EmptyTokenAfterScheme(scheme: string)
    requires Space !in scheme
    ensures !Truthy(ExtractToken(Some(scheme + [Space])))
  {
    SchemeIgnored(scheme, [], []);
    assert scheme + [Space] + [] + [] == scheme + [Space];
  }
}
