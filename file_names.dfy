/**
 The two name helpers of src/data_processing.py (the same code is repeated in
 src/project_lawsrag/utils/data_processing.py): the law type taken from a folder
 name, and the law name taken from a file name.
 */
module FileNames {
  import opened Text

  /** `extract_type_from_folder`: the text after the first `-`, or the whole name when
      it has none. */
  function ExtractTypeFromFolder(folder: string): (r: string)
    ensures !Contains(folder, "-") ==> r == folder
    ensures Contains(folder, "-") ==>
      exists i :: 0 <= i < |folder| && folder[i] == '-' && r == folder[i + 1..]
        && forall j :: 0 <= j < i ==> folder[j] != '-'
  {
    match IndexOf(folder, "-")
    case None => folder
    case Some(i) =>
      assert folder[i] == folder[i..i + 1][0];
      FirstDash(folder, i);
      folder[i + 1..]
  }

  /** No dash comes before the one `find` reports. */
  lemma {:induction false} FirstDash(s: string, i: nat)
    requires IndexOf(s, "-") == Some(i)
    ensures forall j :: 0 <= j < i ==> s[j] != '-'
  {
    forall j | 0 <= j < i
      ensures s[j] != '-'
    {
      assert s[j..][..1] == [s[j]];
    }
  }

  /** The type is whatever follows the first `-`, itself included any later `-`. */
  lemma {:induction false} TypeAfterFirstDash(prefix: string, t: string)
    requires forall k :: 0 <= k < |prefix| ==> prefix[k] != '-'
    ensures ExtractTypeFromFolder(prefix + "-" + t) == t
  {
    var folder := prefix + "-" + t;
    assert "-" <= folder[|prefix|..];
    assert Contains(folder, "-") by {
      ContainsAt(folder, "-", |prefix|);
    }
    var i := IndexOf(folder, "-").value;
    assert folder[i] == folder[i..i + 1][0] == '-';
    assert forall k :: 0 <= k < |prefix| ==> folder[k] == prefix[k];
    assert i == |prefix|;
    assert folder[i + 1..] == t;
  }

  // ---------------------------------------------------------------------------
  // Path(file_name).stem

  /** `s.rfind(c)`: the index of the last occurrence of `c`. */
  function LastIndexOf(s: string, c: char): (r: Option<nat>)
    ensures r.Some? ==> (r.value < |s| && s[r.value] == c
      && forall j :: r.value < j < |s| ==> s[j] != c)
    ensures r.None? ==> forall j :: 0 <= j < |s| ==> s[j] != c
  {
    if s == [] then None
    else if s[|s| - 1] == c then Some(|s| - 1)
    else LastIndexOf(s[..|s| - 1], c)
  }

  /** The stem of a file name: the name without its last `.suffix`. A name whose only
      dot is its first or last character keeps it. */
  function Stem(name: string): (r: string)
    ensures r <= name
    ensures r != name ==> (0 < |r| < |name| - 1 && name[|r|] == '.'
      && forall j :: |r| < j < |name| ==> name[j] != '.')
  {
    match LastIndexOf(name, '.')
    case Some(i) => if 0 < i < |name| - 1 then name[..i] else name
    case None => name
  }

  /** The stem drops exactly one extension, whatever dots the base holds. */
  lemma {:induction false} StemOfExtension(base: string, ext: string)
    requires base != [] && ext != []
    requires forall k :: 0 <= k < |ext| ==> ext[k] != '.'
    ensures Stem(base + "." + ext) == base
  {
    var name := base + "." + ext;
    assert name[|base|] == '.';
    assert forall j :: |base| < j < |name| ==> name[j] == ext[j - |base| - 1];
    var i := LastIndexOf(name, '.').value;
    assert i == |base|;
  }

  /** A name without a dot, or whose only dot comes first (a hidden file), is its own
      stem. */
  lemma {:induction false} StemWithoutExtension(name: string)
    requires forall k :: 0 < k < |name| ==> name[k] != '.'
    ensures Stem(name) == name
  {
  }

  // ---------------------------------------------------------------------------
  // re.sub(r'\s*\([^)]+\)$', '', name)

  /** `w` matches `\([^)]+\)` exactly: `(`, at least one character other than `)`,
      then `)`. */
  predicate IsGroup(w: string)
  {
    |w| >= 3 && w[0] == '(' && w[|w| - 1] == ')' && forall k :: 1 <= k < |w| - 1 ==> w[k] != ')'
  }

  /** `u` matches `\s*\([^)]+\)` exactly: whitespace, then a group. */
  predicate IsGroupSuffix(u: string)
    decreases |u|
  {
    u != [] && if IsSpace(u[0]) then IsGroupSuffix(u[1..]) else IsGroup(u)
  }

  /** Where `$` may match: the end of the name, or just before a final newline. */
  function Subject(name: string): (body: string)
    ensures body <= name && |name| - 1 <= |body|
    ensures |body| < |name| <==> name != [] && name[|name| - 1] == '\n'
  {
    if name != [] && name[|name| - 1] == '\n' then name[..|name| - 1] else name
  }

  /** The leftmost position, from `p` on, where a match of the pattern starts. */
  function FirstGroupSuffix(body: string, p: nat): (r: Option<nat>)
    requires p <= |body|
    ensures r.Some? ==> (p <= r.value <= |body| && IsGroupSuffix(body[r.value..])
      && forall q :: p <= q < r.value ==> !IsGroupSuffix(body[q..]))
    ensures r.None? ==> forall q :: p <= q <= |body| ==> !IsGroupSuffix(body[q..])
    decreases |body| - p
  {
    if IsGroupSuffix(body[p..]) then Some(p)
    else if p == |body| then None
    else FirstGroupSuffix(body, p + 1)
  }

  /** `p` is where the leftmost match in `body` starts. */
  predicate LeastGroupAt(body: string, p: nat)
  {
    p <= |body| && IsGroupSuffix(body[p..]) && forall q :: 0 <= q < p ==> !IsGroupSuffix(body[q..])
  }

  /** The substitution: a name without a match is returned as it is; otherwise the
      leftmost match is removed, and a final newline after it stays. */
  function RemoveTrailingGroup(name: string): (r: string)
    ensures var body := Subject(name);
      (forall q :: 0 <= q <= |body| ==> !IsGroupSuffix(body[q..])) ==> r == name
    ensures var body := Subject(name);
      forall p: nat :: LeastGroupAt(body, p) ==> r == body[..p] + name[|body|..]
  {
    var body := Subject(name);
    match FirstGroupSuffix(body, 0)
    case None => name
    case Some(p) =>
      LeastIsUnique(body, p);
      body[..p] + name[|body|..]
  }

  /** There is only one leftmost match. */
  lemma {:induction false} LeastIsUnique(body: string, p: nat)
    requires LeastGroupAt(body, p)
    ensures forall p': nat :: LeastGroupAt(body, p') ==> p' == p
  {
  }

  /** `extract_law_name_from_file`: the substitution applied to the stem, so a stem
      without a match, in particular one that does not end with `)`, is the law name
      itself. */
  function ExtractLawNameFromFile(fileName: string): (r: string)
    ensures var stem := Stem(fileName); var body := Subject(stem);
      (forall q :: 0 <= q <= |body| ==> !IsGroupSuffix(body[q..])) ==> r == stem
    ensures var stem := Stem(fileName); var body := Subject(stem);
      forall p: nat :: LeastGroupAt(body, p) ==> r == body[..p] + stem[|body|..]
    ensures var stem := Stem(fileName); var body := Subject(stem);
      (body == [] || body[|body| - 1] != ')') ==> r == stem
  {
    var stem := Stem(fileName);
    var body := Subject(stem);
    if body == [] || body[|body| - 1] != ')' then
      NoGroupUnchanged(stem);
      RemoveTrailingGroup(stem)
    else
      RemoveTrailingGroup(stem)
  }

  /** A match ends with `)`. */
  lemma {:induction false} GroupSuffixEnds(u: string)
    requires IsGroupSuffix(u)
    ensures u != [] && u[|u| - 1] == ')'
    decreases |u|
  {
    if IsSpace(u[0]) {
      GroupSuffixEnds(u[1..]);
      assert u[1..][|u| - 2] == u[|u| - 1];
    }
  }

  /** A name that does not end with `)` (before an optional final newline) is left as
      it is. */
  lemma {:induction false} NoGroupUnchanged(name: string)
    requires var body := Subject(name); body == [] || body[|body| - 1] != ')'
    ensures RemoveTrailingGroup(name) == name
  {
    var body := Subject(name);
    var m := FirstGroupSuffix(body, 0);
    if m.Some? {
      GroupSuffixEnds(body[m.value..]);
      assert false;
    }
  }

  /** Every `(` of `s` is closed by a later `)` of `s`. */
  predicate ParensClosed(s: string)
  {
    forall i :: 0 <= i < |s| && s[i] == '(' ==> exists j :: i < j < |s| && s[j] == ')'
  }

  /** One trailing group is removed together with the whitespace before it; groups
      earlier in the name stay. */
  lemma {:induction false} RemoveGroupAfter(base: string, x: string)
    requires x != [] && forall k :: 0 <= k < |x| ==> x[k] != ')'
    requires ParensClosed(base)
    ensures RemoveTrailingGroup(base + "(" + x + ")") == TrimEnd(base)
  {
    var name := base + "(" + x + ")";
    var n := |TrimEnd(base)|;
    assert Subject(name) == name;
    forall q | 0 <= q < n
      ensures !IsGroupSuffix(name[q..])
    {
      NotGroupInside(base, x, q);
    }
    GroupAfterSpaces(base, x);
    var p := FirstGroupSuffix(name, 0).value;
    assert p == n;
    assert name[..n] == base[..n];
  }

  /** A match cannot start before the whitespace that ends `base`: skipping whitespace
      from there stops inside `base`, on a character that is not `(` or on a `(` that
      `base` closes. */
  lemma {:induction false} NotGroupInside(base: string, x: string, p: nat)
    requires x != [] && forall k :: 0 <= k < |x| ==> x[k] != ')'
    requires ParensClosed(base)
    requires p < |TrimEnd(base)|
    ensures !IsGroupSuffix((base + "(" + x + ")")[p..])
    decreases |base| - p
  {
    var s := base + "(" + x + ")";
    var u := s[p..];
    var n := |TrimEnd(base)|;
    assert !IsSpace(base[n - 1]) by {
      assert TrimEnd(base)[n - 1] == base[n - 1];
    }
    assert u[0] == base[p];
    if IsSpace(base[p]) {
      NotGroupInside(base, x, p + 1);
      assert u[1..] == s[p + 1..];
    } else if base[p] == '(' {
      var j :| p < j < |base| && base[j] == ')';
      assert u[j - p] == ')';
    }
  }

  /** The trailing whitespace of `base` and the group form a match. */
  lemma {:induction false} GroupAfterSpaces(base: string, x: string)
    requires x != [] && forall k :: 0 <= k < |x| ==> x[k] != ')'
    ensures IsGroupSuffix((base + "(" + x + ")")[|TrimEnd(base)|..])
  {
    var n := |TrimEnd(base)|;
    var g := "(" + x + ")";
    var sp := base[n..];
    assert forall k :: 0 <= k < |sp| ==> IsSpace(sp[k]) by {
      assert forall k :: 0 <= k < |sp| ==> sp[k] == base[n + k];
    }
    GroupOf(x);
    SpacesThenGroup(sp, g);
    var name := base + "(" + x + ")";
    assert name == base + g;
    assert name[n..] == sp + g;
  }

  lemma {:induction false} GroupOf(x: string)
    requires x != [] && forall k :: 0 <= k < |x| ==> x[k] != ')'
    ensures IsGroup("(" + x + ")")
  {
    var g := "(" + x + ")";
    assert forall k :: 1 <= k < |g| - 1 ==> g[k] == x[k - 1];
  }

  lemma {:induction false} SpacesThenGroup(sp: string, g: string)
    requires forall k :: 0 <= k < |sp| ==> IsSpace(sp[k])
    requires IsGroup(g)
    ensures IsGroupSuffix(sp + g)
    decreases |sp|
  {
    if sp != [] {
      assert (sp + g)[1..] == sp[1..] + g;
      SpacesThenGroup(sp[1..], g);
    } else {
      assert sp + g == g;
    }
  }

  /** A final newline is kept after the removal. */
  lemma {:induction false} FinalNewlineKept(s: string)
    requires s == [] || s[|s| - 1] != '\n'
    ensures RemoveTrailingGroup(s + "\n") == RemoveTrailingGroup(s) + "\n"
  {
    var name := s + "\n";
    assert Subject(name) == s;
    assert name[|s|..] == "\n";
  }

  /** The law name of `base(x).ext`: the stem loses its extension, then the group and
      the whitespace before it. */
  lemma {:induction false} LawNameOfFile(base: string, x: string, ext: string)
    requires x != [] && forall k :: 0 <= k < |x| ==> x[k] != ')'
    requires ParensClosed(base)
    requires ext != [] && forall k :: 0 <= k < |ext| ==> ext[k] != '.'
    ensures ExtractLawNameFromFile(base + "(" + x + ")" + "." + ext) == TrimEnd(base)
  {
    StemOfExtension(base + "(" + x + ")", ext);
    RemoveGroupAfter(base, x);
  }
}
