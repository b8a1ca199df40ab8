/**
 * The MathJax package list of app.js: MATHYD_MATHJAX_PACKAGES, or the default
 * when that is unset or empty, split on the JavaScript regular expression
 * `\s*,\s*` (optional whitespace, a comma, optional whitespace).
 *
 * That split cuts at every comma and removes the whitespace run on each side of
 * it: every piece but the last loses its trailing whitespace, every piece but the
 * first its leading whitespace. Whitespace at the very start or end of the whole
 * string is kept.
 */
module Packages {
  import opened Wrappers

  const DefaultPackages := "base, autoload, require, ams, newcommand"

  /** The characters `\s` matches in a JavaScript regular expression. */
  predicate IsJsSpace(c: char) {
    c == '\t' || c == '\n' || c == '\U{000B}' || c == '\U{000C}' || c == '\r' || c == ' '
    || c == '\U{00A0}' || c == '\U{1680}' || '\U{2000}' <= c <= '\U{200A}'
    || c == '\U{2028}' || c == '\U{2029}' || c == '\U{202F}' || c == '\U{205F}'
    || c == '\U{3000}' || c == '\U{FEFF}'
  }

  predicate AllSpace(s: string) {
    forall i :: 0 <= i < |s| ==> IsJsSpace(s[i])
  }

  /** The index of the first comma of `s`, or `|s|` when there is none. */
  function CommaIndex(s: string): (i: nat)
    ensures i <= |s|
  {
    if s == [] then 0
    else if s[0] == ',' then 0
    else 1 + CommaIndex(s[1..])
  }

  lemma {:induction false} CommaIndexFindsFirstComma(s: string)
    ensures CommaIndex(s) < |s| ==> s[CommaIndex(s)] == ','
    ensures forall j :: 0 <= j < CommaIndex(s) ==> s[j] != ','
    decreases |s|
  {
    if s != [] && s[0] != ',' {
      CommaIndexFindsFirstComma(s[1..]);
    }
  }

  /** The text between commas, whitespace untouched. */
  function Fields(s: string): (r: seq<string>)
    ensures |r| >= 1
    decreases |s|
  {
    var i := CommaIndex(s);
    if i == |s| then
      assert s[..i] == s;
      [s]
    else
      [s[..i]] + Fields(s[i + 1..])
  }

  /** No field holds a comma. */
  lemma {:induction false} FieldsHaveNoComma(s: string)
    ensures forall k :: 0 <= k < |Fields(s)| ==> ',' !in Fields(s)[k]
    decreases |s|
  {
    var i := CommaIndex(s);
    CommaIndexFindsFirstComma(s);
    assert ',' !in s[..i];
    if i < |s| {
      FieldsHaveNoComma(s[i + 1..]);
    }
  }

  /** Glues pieces back together with a comma between each two. */
  function JoinWithCommas(pieces: seq<string>): (s: string) {
    if |pieces| <= 1 then (if pieces == [] then "" else pieces[0])
    else pieces[0] + "," + JoinWithCommas(pieces[1..])
  }

  function CommaCount(s: string): (n: nat) {
    if s == [] then 0 else (if s[0] == ',' then 1 else 0) + CommaCount(s[1..])
  }

  /** Cutting at the commas loses nothing: joining the fields gives the string back. */
  lemma {:induction false} JoinFields(s: string)
    ensures JoinWithCommas(Fields(s)) == s
    decreases |s|
  {
    var i := CommaIndex(s);
    CommaIndexFindsFirstComma(s);
    if i == |s| {
      assert s[..i] == s;
    } else {
      JoinFields(s[i + 1..]);
      assert s == s[..i] + "," + s[i + 1..];
    }
  }

  lemma {:induction false} CommaCountSplit(a: string, b: string)
    ensures CommaCount(a + b) == CommaCount(a) + CommaCount(b)
    decreases |a|
  {
    if a != [] {
      assert (a + b)[0] == a[0];
      assert (a + b)[1..] == a[1..] + b;
      CommaCountSplit(a[1..], b);
    } else {
      assert a + b == b;
    }
  }

  lemma {:induction false} NoCommaCountsZero(s: string)
    requires ',' !in s
    ensures CommaCount(s) == 0
    decreases |s|
  {
    if s != [] {
      assert s[0] != ',';
      NoCommaCountsZero(s[1..]);
    }
  }

  /** There is one field more than there are commas. */
  lemma {:induction false} FieldCount(s: string)
    ensures |Fields(s)| == CommaCount(s) + 1
    decreases |s|
  {
    var i := CommaIndex(s);
    CommaIndexFindsFirstComma(s);
    NoCommaCountsZero(s[..i]);
    if i == |s| {
      assert s[..i] == s;
    } else {
      FieldCount(s[i + 1..]);
      assert s == s[..i] + ([','] + s[i + 1..]);
      CommaCountSplit(s[..i], [','] + s[i + 1..]);
      CommaCountSplit([','], s[i + 1..]);
    }
  }

  /** The length of the whitespace run that starts `s`. */
  function LeadingSpace(s: string): (n: nat)
    ensures n <= |s|
  {
    if s != [] && IsJsSpace(s[0]) then 1 + LeadingSpace(s[1..]) else 0
  }

  /** The length of the whitespace run that ends `s`. */
  function TrailingSpace(s: string): (n: nat)
    ensures n <= |s|
  {
    if s != [] && IsJsSpace(s[|s| - 1]) then 1 + TrailingSpace(s[..|s| - 1]) else 0
  }

  lemma {:induction false} LeadingSpaceIsMaximalRun(s: string)
    ensures AllSpace(s[..LeadingSpace(s)])
    ensures forall j :: 0 <= j < LeadingSpace(s) ==> IsJsSpace(s[j])
    ensures LeadingSpace(s) < |s| ==> !IsJsSpace(s[LeadingSpace(s)])
    decreases |s|
  {
    if s != [] && IsJsSpace(s[0]) {
      LeadingSpaceIsMaximalRun(s[1..]);
      assert s[..LeadingSpace(s)] == [s[0]] + s[1..][..LeadingSpace(s[1..])];
    }
    forall j | 0 <= j < LeadingSpace(s)
      ensures IsJsSpace(s[j])
    {
      assert s[..LeadingSpace(s)][j] == s[j];
    }
  }

  lemma {:induction false} TrailingSpaceIsMaximalRun(s: string)
    ensures AllSpace(s[|s| - TrailingSpace(s)..])
    ensures forall j :: |s| - TrailingSpace(s) <= j < |s| ==> IsJsSpace(s[j])
    ensures TrailingSpace(s) < |s| ==> !IsJsSpace(s[|s| - 1 - TrailingSpace(s)])
    decreases |s|
  {
    if s != [] && IsJsSpace(s[|s| - 1]) {
      var t := s[..|s| - 1];
      TrailingSpaceIsMaximalRun(t);
      assert s[|s| - TrailingSpace(s)..] == t[|t| - TrailingSpace(t)..] + [s[|s| - 1]];
    }
    var start := |s| - TrailingSpace(s);
    forall j | start <= j < |s|
      ensures IsJsSpace(s[j])
    {
      assert s[start..][j - start] == s[j];
    }
  }

  /** The leading and trailing whitespace runs of a string that is not all whitespace do not meet. */
  lemma SpaceRunsApart(f: string)
    ensures LeadingSpace(f) < |f| <==> TrailingSpace(f) < |f|
    ensures LeadingSpace(f) < |f| ==> LeadingSpace(f) + TrailingSpace(f) < |f|
  {
    LeadingSpaceIsMaximalRun(f);
    TrailingSpaceIsMaximalRun(f);
  }

  /** `s` without its leading whitespace run: a suffix of `s`. */
  function TrimStart(s: string): (r: string)
    ensures |r| <= |s|
  {
    s[LeadingSpace(s)..]
  }

  /** `s` without its trailing whitespace run: a prefix of `s`. */
  function TrimEnd(s: string): (r: string)
    ensures |r| <= |s|
  {
    s[..|s| - TrailingSpace(s)]
  }

  /** The `k`-th of `n` fields as the split leaves it: no trailing whitespace unless last, no leading unless first. */
  function TrimField(f: string, k: nat, n: nat): (r: string)
    ensures |r| <= |f|
  {
    var kept := if k + 1 < n then TrimEnd(f) else f;
    if 0 < k then TrimStart(kept) else kept
  }

  /**
   * `piece` is `f` with a whitespace run cut off each end; when `keepLead` (resp.
   * `keepTrail`) holds, nothing is cut off the start (resp. the end).
   */
  ghost predicate TrimmedFrom(f: string, piece: string, keepLead: bool, keepTrail: bool) {
    exists a, b :: f == a + piece + b && AllSpace(a) && AllSpace(b)
                   && (keepLead ==> a == []) && (keepTrail ==> b == [])
  }

  lemma CutEnd(f: string)
    ensures f == TrimEnd(f) + f[|f| - TrailingSpace(f)..]
    ensures AllSpace(f[|f| - TrailingSpace(f)..])
  {
    var cut := |f| - TrailingSpace(f);
    assert AllSpace(f[cut..]) by {
      TrailingSpaceIsMaximalRun(f);
    }
  }

  lemma CutStart(f: string)
    ensures f == f[..LeadingSpace(f)] + TrimStart(f)
    ensures AllSpace(f[..LeadingSpace(f)])
  {
    var cut := LeadingSpace(f);
    assert TrimStart(f) == f[cut..];
    assert f == f[..cut] + f[cut..];
    assert AllSpace(f[..cut]) by {
      LeadingSpaceIsMaximalRun(f);
    }
  }

  lemma TrimmedFromWitness(f: string, piece: string, a: string, b: string, keepLead: bool, keepTrail: bool)
    requires f == a + piece + b && AllSpace(a) && AllSpace(b)
    requires (keepLead ==> a == []) && (keepTrail ==> b == [])
    ensures TrimmedFrom(f, piece, keepLead, keepTrail)
  {
  }

  /** Trimming cuts whitespace off the ends of a field that touch a comma, and nothing else. */
  lemma TrimFieldCutsSpace(f: string, k: nat, n: nat)
    ensures TrimmedFrom(f, TrimField(f, k, n), k == 0, k + 1 >= n)
  {
    var kept := if k + 1 < n then TrimEnd(f) else f;
    var b: string := if k + 1 < n then f[|f| - TrailingSpace(f)..] else [];
    CutEnd(f);
    assert f == kept + b;
    var r := TrimField(f, k, n);
    if 0 < k {
      CutStart(kept);
      var a := kept[..LeadingSpace(kept)];
      assert r == TrimStart(kept);
      assert f == a + r + b;
      TrimmedFromWitness(f, r, a, b, k == 0, k + 1 >= n);
    } else {
      assert r == kept;
      assert f == [] + r + b;
      TrimmedFromWitness(f, r, [], b, k == 0, k + 1 >= n);
    }
  }

  /** Trimming adds no comma, and leaves no whitespace at an end of the field that touches a comma. */
  lemma TrimFieldSpec(f: string, k: nat, n: nat)
    ensures ',' !in f ==> ',' !in TrimField(f, k, n)
    ensures k + 1 < n ==> TrimField(f, k, n) == [] || !IsJsSpace(TrimField(f, k, n)[|TrimField(f, k, n)| - 1])
    ensures 0 < k ==> TrimField(f, k, n) == [] || !IsJsSpace(TrimField(f, k, n)[0])
  {
    var kept := if k + 1 < n then TrimEnd(f) else f;
    TrailingSpaceIsMaximalRun(f);
    LeadingSpaceIsMaximalRun(kept);
    var r := TrimField(f, k, n);
    if 0 < k {
      assert r == kept[LeadingSpace(kept)..];
    }
    if k + 1 < n && r != [] {
      // the last character of the trimmed field is the last one TrimEnd kept
      var lead := if 0 < k then LeadingSpace(kept) else 0;
      assert r == kept[lead..];
      assert r[|r| - 1] == f[|f| - 1 - TrailingSpace(f)];
    }
    if ',' in r {
      var j :| 0 <= j < |r| && r[j] == ',';
      var lead := if 0 < k then LeadingSpace(kept) else 0;
      assert r[j] == f[lead + j];
    }
  }

  // s.split(/\s*,\s*/)
  function Split(s: string): (r: seq<string>)
    ensures |r| == |Fields(s)|
  {
    var fields := Fields(s);
    seq(|fields|, k requires 0 <= k < |fields| => TrimField(fields[k], k, |fields|))
  }

  /** The split gives one piece per comma-separated field, none holding a comma, and none keeping whitespace next to a comma. */
  lemma SplitSpec(s: string)
    ensures |Split(s)| == CommaCount(s) + 1
    ensures forall k :: 0 <= k < |Split(s)| ==> ',' !in Split(s)[k]
    ensures forall k :: 0 <= k < |Split(s)| - 1 ==> Split(s)[k] == [] || !IsJsSpace(Split(s)[k][|Split(s)[k]| - 1])
    ensures forall k :: 0 < k < |Split(s)| ==> Split(s)[k] == [] || !IsJsSpace(Split(s)[k][0])
  {
    var fields := Fields(s);
    FieldCount(s);
    FieldsHaveNoComma(s);
    forall k | 0 <= k < |fields| {
      TrimFieldSpec(fields[k], k, |fields|);
    }
  }

  predicate NoSpace(s: string) {
    forall i :: 0 <= i < |s| ==> !IsJsSpace(s[i])
  }

  /** The fields of a string without whitespace have none either. */
  lemma {:induction false} FieldsHaveNoSpace(s: string)
    requires NoSpace(s)
    ensures forall k :: 0 <= k < |Fields(s)| ==> NoSpace(Fields(s)[k])
    decreases |s|
  {
    var i := CommaIndex(s);
    if i < |s| {
      FieldsHaveNoSpace(s[i + 1..]);
    }
  }

  /** Without whitespace the split is a plain cut at the commas, so gluing its pieces back with commas gives the string back. */
  lemma SplitJoin(s: string)
    requires NoSpace(s)
    ensures Split(s) == Fields(s)
    ensures JoinWithCommas(Split(s)) == s
  {
    var fields := Fields(s);
    FieldsHaveNoSpace(s);
    forall k | 0 <= k < |fields|
      ensures Split(s)[k] == fields[k]
    {
      var f := fields[k];
      assert LeadingSpace(f) == 0;
      assert TrailingSpace(f) == 0;
    }
    JoinFields(s);
  }

  /** Each piece of the split is its field with whitespace cut off the ends that touch a comma, and nothing else. */
  lemma SplitTrimsFields(s: string)
    ensures forall k :: 0 <= k < |Split(s)| ==> TrimmedFrom(Fields(s)[k], Split(s)[k], k == 0, k == |Split(s)| - 1)
  {
    var fields := Fields(s);
    forall k | 0 <= k < |fields|
      ensures TrimmedFrom(fields[k], Split(s)[k], k == 0, k == |fields| - 1)
    {
      TrimFieldCutsSpace(fields[k], k, |fields|);
    }
  }

  /** `process.env.MATHYD_MATHJAX_PACKAGES || DefaultPackages`: an unset or empty variable gives the default. */
  function PackageSource(env: Option<string>): (s: string)
    ensures s != ""
    ensures env.None? || env == Some("") ==> s == DefaultPackages
    ensures env.Some? && env.value != "" ==> s == env.value
  {
    if env.Some? && env.value != "" then env.value else DefaultPackages
  }

  // MATHJAX_PACKAGES.split(/\s*,\s*/)
  function PackageList(env: Option<string>): (r: seq<string>)
    ensures |r| >= 1
  {
    Split(PackageSource(env))
  }

  /** Whatever the environment holds, MathJax gets at least one package name and none contains a comma. */
  lemma PackageListHasNoCommas(env: Option<string>)
    ensures |PackageList(env)| >= 1
    ensures forall k :: 0 <= k < |PackageList(env)| ==> ',' !in PackageList(env)[k]
  {
    SplitSpec(PackageSource(env));
  }

  lemma {:induction false} CommaIndexIs(s: string, i: nat)
    requires i < |s| && s[i] == ','
    requires forall j :: 0 <= j < i ==> s[j] != ','
    ensures CommaIndex(s) == i
    decreases i
  {
    if i > 0 {
      CommaIndexIs(s[1..], i - 1);
    }
  }

  lemma FieldsNoComma(a: string)
    requires ',' !in a
    ensures Fields(a) == [a]
  {
    CommaIndexFindsFirstComma(a);
    assert CommaIndex(a) == |a|;
  }

  /** The fields of the suffix of `s` from `start`, when the first comma after `start` is at `i`. */
  lemma FieldsFrom(s: string, start: nat, i: nat)
    requires start <= i < |s| && s[i] == ','
    requires ',' !in s[start..i]
    ensures Fields(s[start..]) == [s[start..i]] + Fields(s[i + 1..])
  {
    var t := s[start..];
    assert forall j :: 0 <= j < i - start ==> t[j] == s[start..i][j];
    CommaIndexIs(t, i - start);
    assert t[..i - start] == s[start..i];
    assert t[i - start + 1..] == s[i + 1..];
  }

  lemma FieldsOfCons(a: string, rest: string)
    requires ',' !in a
    ensures Fields(a + "," + rest) == [a] + Fields(rest)
  {
    var s := a + "," + rest;
    assert s[|a|] == ',';
    assert s[0..] == s;
    assert s[0..|a|] == a;
    assert s[|a| + 1..] == rest;
    FieldsFrom(s, 0, |a|);
  }

  lemma DefaultIsJoin()
    ensures DefaultPackages == "base" + "," + (" autoload" + "," + (" require" + "," + (" ams" + "," + " newcommand")))
  {
  }

  lemma FieldsOfThree(c: string, d: string, e: string)
    requires ',' !in c && ',' !in d && ',' !in e
    ensures Fields(c + "," + (d + "," + e)) == [c, d, e]
  {
    FieldsNoComma(e);
    FieldsOfCons(d, e);
    FieldsOfCons(c, d + "," + e);
  }

  lemma FieldsOfFive(a: string, b: string, c: string, d: string, e: string)
    requires ',' !in a && ',' !in b && ',' !in c && ',' !in d && ',' !in e
    ensures Fields(a + "," + (b + "," + (c + "," + (d + "," + e)))) == [a, b, c, d, e]
  {
    var rest := c + "," + (d + "," + e);
    FieldsOfThree(c, d, e);
    FieldsOfCons(b, rest);
    FieldsOfCons(a, b + "," + rest);
  }

  lemma DefaultFields()
    ensures Fields(DefaultPackages) == ["base", " autoload", " require", " ams", " newcommand"]
  {
    DefaultIsJoin();
    FieldsOfFive("base", " autoload", " require", " ams", " newcommand");
  }

  /** What the split makes of a string with five fields. */
  lemma SplitOfFive(s: string, a: string, b: string, c: string, d: string, e: string)
    requires Fields(s) == [a, b, c, d, e]
    ensures Split(s) == [TrimEnd(a), TrimStart(TrimEnd(b)), TrimStart(TrimEnd(c)), TrimStart(TrimEnd(d)), TrimStart(e)]
  {
    var p := Split(s);
    assert |p| == 5;
    assert p[0] == TrimField(a, 0, 5) == TrimEnd(a);
    assert p[1] == TrimField(b, 1, 5) == TrimStart(TrimEnd(b));
    assert p[2] == TrimField(c, 2, 5) == TrimStart(TrimEnd(c));
    assert p[3] == TrimField(d, 3, 5) == TrimStart(TrimEnd(d));
    assert p[4] == TrimField(e, 4, 5) == TrimStart(e);
  }

  lemma TrimmedBase() ensures TrimEnd("base") == "base" {}
  lemma TrimmedAutoload() ensures TrimStart(TrimEnd(" autoload")) == "autoload" {
    assert TrimEnd(" autoload") == " autoload";
  }
  lemma TrimmedRequire() ensures TrimStart(TrimEnd(" require")) == "require" {
    assert TrimEnd(" require") == " require";
  }
  lemma TrimmedAms() ensures TrimStart(TrimEnd(" ams")) == "ams" {
    assert TrimEnd(" ams") == " ams";
  }
  lemma TrimmedNewcommand() ensures TrimStart(" newcommand") == "newcommand" {}

  /** Without the environment variable, or with it empty, MathJax gets the five default packages in order. */
  lemma DefaultPackageList(env: Option<string>)
    requires env.None? || env == Some("")
    ensures PackageList(env) == ["base", "autoload", "require", "ams", "newcommand"]
  {
    DefaultFields();
    SplitOfFive(DefaultPackages, "base", " autoload", " require", " ams", " newcommand");
    TrimmedBase();
    TrimmedAutoload();
    TrimmedRequire();
    TrimmedAms();
    TrimmedNewcommand();
  }

  lemma SplitOfTwo(s: string, a: string, b: string)
    requires Fields(s) == [a, b]
    ensures Split(s) == [TrimEnd(a), TrimStart(b)]
  {
    var p := Split(s);
    assert |p| == 2;
    assert p[0] == TrimField(a, 0, 2) == TrimEnd(a);
    assert p[1] == TrimField(b, 1, 2) == TrimStart(b);
  }

  lemma OuterSpaceFields(s: string)
    requires s == " base, ams "
    ensures Fields(s) == [" base", " ams "]
  {
    assert s[0..] == s;
    assert s[0..5] == " base";
    FieldsFrom(s, 0, 5);
    assert s[6..] == " ams ";
    FieldsNoComma(s[6..]);
  }

  lemma OuterSpaceTrimmed()
    ensures TrimEnd(" base") == " base"
    ensures TrimStart(" ams ") == "ams "
  {
  }

  /**
   * Whitespace at the very start and end of the whole string survives the split: the
   * first piece begins with the first field's leading whitespace and the last piece
   * ends with the last field's trailing whitespace, unless that field is all whitespace.
   */
  lemma OuterSpaceKept(s: string)
    ensures var f := Fields(s)[0];
            LeadingSpace(f) < |f| ==> f[..LeadingSpace(f)] <= Split(s)[0]
    ensures var g, p := Fields(s)[|Fields(s)| - 1], Split(s)[|Split(s)| - 1];
            TrailingSpace(g) < |g| ==>
              TrailingSpace(g) <= |p| && p[|p| - TrailingSpace(g)..] == g[|g| - TrailingSpace(g)..]
  {
    var fields, pieces := Fields(s), Split(s);
    var n := |fields|;
    SplitPiece(s, 0);
    SplitPiece(s, n - 1);
    FirstFieldKeepsLead(fields[0], pieces[0], n);
    LastFieldKeepsTrail(fields[n - 1], pieces[n - 1], n);
  }

  lemma SplitPiece(s: string, k: nat)
    requires k < |Fields(s)|
    ensures Split(s)[k] == TrimField(Fields(s)[k], k, |Fields(s)|)
  {
  }

  lemma FirstFieldKeepsLead(f: string, p: string, n: nat)
    requires p == TrimField(f, 0, n)
    ensures LeadingSpace(f) < |f| ==> f[..LeadingSpace(f)] <= p
  {
    SpaceRunsApart(f);
  }

  lemma LastFieldKeepsTrail(g: string, p: string, n: nat)
    requires n >= 1 && p == TrimField(g, n - 1, n)
    ensures TrailingSpace(g) < |g| ==>
              TrailingSpace(g) <= |p| && p[|p| - TrailingSpace(g)..] == g[|g| - TrailingSpace(g)..]
  {
    if 1 < n {
      assert p == TrimStart(g);
      TrimStartKeepsTrail(g);
    } else {
      assert p == g;
    }
  }

  lemma TrimStartKeepsTrail(g: string)
    ensures var p, trail := TrimStart(g), TrailingSpace(g);
            trail < |g| ==> trail <= |p| && p[|p| - trail..] == g[|g| - trail..]
  {
    SpaceRunsApart(g);
    var p, lead, trail := TrimStart(g), LeadingSpace(g), TrailingSpace(g);
    if trail < |g| {
      assert p == g[lead..];
      assert p[|p| - trail..] == g[|g| - trail..];
    }
  }

  /** The two pieces of `" base, ams "`: the outer whitespace stays. */
  lemma OuterSpaceExample()
    ensures Split(" base, ams ") == [" base", "ams "]
  {
    OuterSpaceFields(" base, ams ");
    SplitOfTwo(" base, ams ", " base", " ams ");
    OuterSpaceTrimmed();
  }
}
