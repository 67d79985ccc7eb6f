/**
 Python string operations the law-text segmenters rely on: `str.strip()`,
 `str.split(sep)`, `sep.join(parts)`, the `in` substring test and the search
 behind `str.split(sep, 1)`. Strings are `seq<char>`; one `char` is one Unicode
 code point, as one element of a Python `str` is.
 */
module Text {

  datatype Option<T> = None | Some(value: T)

  /** The characters Python's `str.isspace()` accepts, which `str.strip()` removes. */
  predicate IsSpace(c: char)
  {
    c == ' ' || ('\t' <= c <= '\r') || ('\U{001C}' <= c <= '\U{001F}')
    || c == '\U{0085}' || c == '\U{00A0}' || c == '\U{1680}'
    || ('\U{2000}' <= c <= '\U{200A}') || c == '\U{2028}' || c == '\U{2029}'
    || c == '\U{202F}' || c == '\U{205F}' || c == '\U{3000}'
  }

  /** No whitespace at either end. */
  predicate IsStripped(s: string)
  {
    s == [] || (!IsSpace(s[0]) && !IsSpace(s[|s| - 1]))
  }

  /** `s.lstrip()`: the suffix left after dropping the leading whitespace. */
  function TrimStart(s: string): (r: string)
    ensures |r| <= |s| && r == s[|s| - |r|..]
    ensures forall k :: 0 <= k < |s| - |r| ==> IsSpace(s[k])
    ensures r == [] || !IsSpace(r[0])
  {
    if s != [] && IsSpace(s[0]) then TrimStart(s[1..]) else s
  }

  /** `s.rstrip()`: the prefix left after dropping the trailing whitespace. */
  function TrimEnd(s: string): (r: string)
    ensures |r| <= |s| && r == s[..|r|]
    ensures forall k :: |r| <= k < |s| ==> IsSpace(s[k])
    ensures r == [] || !IsSpace(r[|r| - 1])
  {
    if s != [] && IsSpace(s[|s| - 1]) then TrimEnd(s[..|s| - 1]) else s
  }

  /** `s.strip()` */
  function Strip(s: string): (r: string)
    ensures IsStripped(r)
    ensures |r| <= |s|
  {
    TrimEnd(TrimStart(s))
  }

  lemma {:induction false} StripStripped(s: string)
    requires IsStripped(s)
    ensures Strip(s) == s
  {
  }

  /** Stripping is idempotent. */
  lemma {:induction false} StripIdempotent(s: string)
    ensures Strip(Strip(s)) == Strip(s)
  {
    StripStripped(Strip(s));
  }

  /** `r` sits at index `i` of `s`, with only whitespace before and after it. */
  predicate SpaceAround(s: string, r: string, i: nat)
  {
    && i + |r| <= |s| && s[i..i + |r|] == r
    && (forall k :: 0 <= k < i ==> IsSpace(s[k]))
    && (forall k :: i + |r| <= k < |s| ==> IsSpace(s[k]))
  }

  /** `strip()` removes whitespace at the ends and nothing else. */
  lemma {:induction false} StripSurroundingSpace(s: string)
    ensures exists i: nat :: SpaceAround(s, Strip(s), i)
  {
    var t := TrimStart(s);
    var r := TrimEnd(t);
    assert r == Strip(s);
    var i := |s| - |t|;
    assert t == s[i..];
    assert r == t[..|r|];
    assert s[i..i + |r|] == r by {
      assert s[i..][..|r|] == s[i..i + |r|];
    }
    assert forall k :: i + |r| <= k < |s| ==> IsSpace(s[k]) by {
      assert forall k :: |r| <= k < |t| ==> IsSpace(t[k]);
      assert forall k :: i <= k < |s| ==> s[k] == t[k - i];
    }
    assert SpaceAround(s, r, i);
  }

  /** A leading space is one more character `strip()` removes. */
  lemma {:induction false} StripSpacePrefix(s: string)
    ensures Strip(" " + s) == Strip(s)
  {
    assert (" " + s)[1..] == s;
  }

  /** A non-empty sequence is its front followed by its last element. */
  lemma {:induction false} SplitLast<T>(xs: seq<T>)
    requires xs != []
    ensures xs == xs[..|xs| - 1] + [xs[|xs| - 1]]
  {
  }

  /** Appending is associative; stated for the shapes the proofs meet. */
  lemma {:induction false} AppendAssoc<T>(a: seq<T>, b: seq<T>, c: seq<T>)
    ensures a + b + c == a + (b + c)
  {
  }

  lemma {:induction false} AppendSnoc<T>(a: seq<T>, b: seq<T>, y: T)
    ensures a + (b + [y]) == (a + b) + [y]
  {
  }

  /** `s[k:]` in Python: empty once `k` passes the end. */
  function Slice(s: string, k: nat): (r: string)
    ensures |s| <= k ==> r == ""
    ensures k < |s| ==> |r| == |s| - k && r == s[k..]
  {
    if k <= |s| then s[k..] else ""
  }

  /** `sep.join(parts)` */
  function Join(parts: seq<string>, sep: string): string
  {
    if parts == [] then ""
    else if |parts| == 1 then parts[0]
    else Join(parts[..|parts| - 1], sep) + sep + parts[|parts| - 1]
  }

  lemma {:induction false} JoinCons(part: string, rest: seq<string>, sep: string)
    requires rest != []
    ensures Join([part] + rest, sep) == part + sep + Join(rest, sep)
    decreases |rest|
  {
    var parts := [part] + rest;
    if |rest| == 1 {
      assert parts[..1] == [part];
    } else {
      assert parts[..|parts| - 1] == [part] + rest[..|rest| - 1];
      JoinCons(part, rest[..|rest| - 1], sep);
    }
  }

  /** One more part after at least one: the separator, then the part. */
  lemma {:induction false} JoinSnoc(parts: seq<string>, part: string, sep: string)
    requires parts != []
    ensures Join(parts + [part], sep) == Join(parts, sep) + sep + part
  {
    assert (parts + [part])[..|parts|] == parts;
  }

  /** Joining non-empty stripped parts gives a non-empty stripped string that starts
      with the first part and ends with the last one. */
  lemma {:induction false} JoinStripped(parts: seq<string>, sep: string)
    requires parts != []
    requires forall k :: 0 <= k < |parts| ==> parts[k] != [] && IsStripped(parts[k])
    ensures Join(parts, sep) != []
    ensures Join(parts, sep)[0] == parts[0][0]
    ensures Join(parts, sep)[|Join(parts, sep)| - 1] == parts[|parts| - 1][|parts[|parts| - 1]| - 1]
    ensures IsStripped(Join(parts, sep))
    decreases |parts|
  {
    if |parts| > 1 {
      var init := parts[..|parts| - 1];
      JoinStripped(init, sep);
      var j := Join(init, sep);
      assert Join(parts, sep) == j + sep + parts[|parts| - 1];
      assert Join(parts, sep)[0] == j[0];
    }
  }

  /** `s.split(sep)` for a non-empty separator: the pieces between the occurrences of
      `sep`, found left to right without overlap. */
  function Split(s: string, sep: string): (parts: seq<string>)
    requires sep != []
    ensures parts != []
    decreases |s|
  {
    if |s| < |sep| then [s]
    else if sep <= s then [""] + Split(s[|sep|..], sep)
    else
      var rest := Split(s[1..], sep);
      [[s[0]] + rest[0]] + rest[1..]
  }

  /** No piece holds the separator: every occurrence splits. */
  lemma {:induction false} SplitPiecesFree(s: string, sep: string)
    requires sep != []
    ensures forall k :: 0 <= k < |Split(s, sep)| ==> !Contains(Split(s, sep)[k], sep)
    ensures Split(s, sep)[0] <= s
    decreases |s|
  {
    var parts := Split(s, sep);
    if |s| < |sep| {
      ShortLacks(s, sep);
    } else if sep <= s {
      SplitPiecesFree(s[|sep|..], sep);
      ShortLacks("", sep);
    } else {
      var rest := Split(s[1..], sep);
      SplitPiecesFree(s[1..], sep);
      var h := [s[0]] + rest[0];
      assert h <= s;
      assert h[1..] == rest[0];
      assert !(sep <= h);
      assert forall k :: 1 <= k < |parts| ==> parts[k] == rest[k];
    }
  }

  /** A text shorter than `w` cannot contain it. */
  lemma {:induction false} ShortLacks(s: string, w: string)
    requires |s| < |w|
    ensures !Contains(s, w)
    decreases |s|
  {
    if s != [] {
      ShortLacks(s[1..], w);
    }
  }

  /** Joining the pieces with the separator gives back the text: nothing is lost. */
  lemma {:induction false} JoinSplit(s: string, sep: string)
    requires sep != []
    ensures Join(Split(s, sep), sep) == s
    decreases |s|
  {
    if |s| < |sep| {
    } else if sep <= s {
      JoinSplit(s[|sep|..], sep);
      JoinSplitAtSep(s, sep);
    } else {
      JoinSplit(s[1..], sep);
      JoinSplitAtChar(s, sep);
    }
  }

  /** The step of `JoinSplit` where the text starts with the separator. */
  lemma {:induction false} JoinSplitAtSep(s: string, sep: string)
    requires sep != [] && |s| >= |sep| && sep <= s
    requires Join(Split(s[|sep|..], sep), sep) == s[|sep|..]
    ensures Join(Split(s, sep), sep) == s
  {
    SplitAtSep(s, sep);
    JoinCons("", Split(s[|sep|..], sep), sep);
    PrefixRest(s, sep);
  }

  lemma {:induction false} SplitAtSep(s: string, sep: string)
    requires sep != [] && |s| >= |sep| && sep <= s
    ensures Split(s, sep) == [""] + Split(s[|sep|..], sep)
  {
  }

  lemma {:induction false} PrefixRest(s: string, p: string)
    requires p <= s
    ensures "" + p + s[|p|..] == s
  {
  }

  /** The step of `JoinSplit` where the text does not start with the separator: its
      first character joins the first piece of the rest. */
  lemma {:induction false} JoinSplitAtChar(s: string, sep: string)
    requires sep != [] && |s| >= |sep| && !(sep <= s)
    requires Join(Split(s[1..], sep), sep) == s[1..]
    ensures Join(Split(s, sep), sep) == s
  {
    var rest := Split(s[1..], sep);
    assert Split(s, sep) == [[s[0]] + rest[0]] + rest[1..];
    assert s == [s[0]] + s[1..];
    if |rest| == 1 {
      assert Split(s, sep) == [[s[0]] + rest[0]];
    } else {
      JoinConsFirst(s[0], rest, sep);
    }
  }

  /** Prefixing the first of several parts with a character prefixes the join. */
  lemma {:induction false} JoinConsFirst(c: char, parts: seq<string>, sep: string)
    requires |parts| > 1
    ensures Join([[c] + parts[0]] + parts[1..], sep) == [c] + Join(parts, sep)
  {
    JoinCons([c] + parts[0], parts[1..], sep);
    assert [parts[0]] + parts[1..] == parts;
    JoinCons(parts[0], parts[1..], sep);
  }

  /** A head that cannot start a separator is the first piece, and the rest is split
      on its own. */
  lemma {:induction false} SplitFirst(head: string, sep: string, rest: string)
    requires sep != []
    requires forall k :: 0 <= k < |head| ==> head[k] != sep[0]
    ensures Split(head + sep + rest, sep) == [head] + Split(rest, sep)
    decreases |head|
  {
    var s := head + sep + rest;
    if head == [] {
      assert s == sep + rest;
      assert s[|sep|..] == rest;
    } else {
      assert s[0] == head[0];
      assert s[1..] == head[1..] + sep + rest;
      SplitFirst(head[1..], sep, rest);
      assert [head[0]] + head[1..] == head;
    }
  }

  /** `w in s` for strings. */
  predicate Contains(s: string, w: string)
    decreases |s|
  {
    w <= s || (s != [] && Contains(s[1..], w))
  }

  /** An occurrence at any position makes `Contains` true. */
  lemma {:induction false} ContainsAt(s: string, w: string, i: nat)
    requires i <= |s| && w <= s[i..]
    ensures Contains(s, w)
    decreases i
  {
    if i > 0 {
      assert s[1..][i - 1..] == s[i..];
      ContainsAt(s[1..], w, i - 1);
    }
  }

  /** The index of the first occurrence of `w` in `s`, as `s.find(w)` computes it. */
  function IndexOf(s: string, w: string): (r: Option<nat>)
    ensures r.Some? ==> r.value + |w| <= |s| && s[r.value..r.value + |w|] == w
    ensures r.Some? ==> forall j :: 0 <= j < r.value ==> !(w <= s[j..])
    ensures r.None? <==> !Contains(s, w)
    decreases |s|
  {
    if w <= s then Some(0)
    else if s == [] then None
    else match IndexOf(s[1..], w)
      case None => None
      case Some(i) =>
        assert forall j :: 1 <= j <= i ==> s[j..] == s[1..][j - 1..];
        Some(i + 1)
  }
}
