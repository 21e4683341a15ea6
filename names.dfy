/** The strings the builder makes names and netlist entries from. */
module Names {
  import opened Decimal

  /** `sep.join(xs)`. */
  function Join(xs: seq<string>, sep: string): string
  {
    if |xs| == 0 then "" else if |xs| == 1 then xs[0] else xs[0] + sep + Join(xs[1..], sep)
  }

  /** A header line of the netlist: the keyword, then the items separated by `, `. */
  function Section(keyword: string, items: seq<string>): (r: string)
    ensures StartsWith(r, keyword + " ")
    ensures |r| > 0 && r[|r| - 1] == '\n'
  {
    var line := keyword + " " + Join(items, ", ") + "\n";
    assert line[..|keyword + " "|] == keyword + " ";
    line
  }

  /** `s.startswith(p)`. */
  predicate StartsWith(s: string, p: string) {
    |p| <= |s| && s[..|p|] == p
  }

  lemma StartsWithExtend(s: string, p: string, t: string)
    requires StartsWith(s, p)
    ensures StartsWith(s + t, p)
  {
    assert (s + t)[..|p|] == s[..|p|];
  }

  /** `sub` occurs in `s` at position `k`. */
  predicate OccursAt(s: string, sub: string, k: nat) {
    k + |sub| <= |s| && s[k..k + |sub|] == sub
  }

  /** `sub in s` on strings. */
  predicate Contains(s: string, sub: string) {
    exists k: nat :: k <= |s| && OccursAt(s, sub, k)
  }

  /** The candidate name `_l_<n>` of an equation variable. */
  function LName(n: nat): string {
    "_l_" + NatToString(n)
  }

  /** The automatic name `_input_<n>` of an unnamed input. */
  function InputName(n: nat): string {
    "_input_" + NatToString(n)
  }

  /** The name `_<lhs>_<n>` the assignment hook falls back on when `lhs` is taken. */
  function FallbackName(lhs: string, n: nat): string {
    "_" + lhs + "_" + NatToString(n)
  }

  /** A derived name starts with exactly the operand's leading underscore, or one added. */
  function DerivedPrefix(name: string): string {
    if StartsWith(name, "_") then "" else "_"
  }

  /** The cosmetic name of `SLICE lo hi` of `name` (hi inclusive). */
  function SliceName(name: string, lo: nat, hi: nat): string {
    DerivedPrefix(name) + name + "_slc_" + NatToString(lo) + "_" + NatToString(hi)
  }

  /** The cosmetic name of `SELECT i` of `name`. */
  function SelectName(name: string, i: nat): string {
    DerivedPrefix(name) + name + "_sel_" + NatToString(i)
  }

  /** The `VAR` entry of a variable: bare for one wire, `name:width` for a bus. */
  function FullName(name: string, busSize: nat): string {
    if busSize == 1 then name else name + ":" + NatToString(busSize)
  }

  /** Position of the first `c` in `s`, or `|s|` when there is none. */
  function IndexOf(s: string, c: char): (k: nat)
    ensures k <= |s|
    ensures k < |s| ==> s[k] == c
    ensures forall j :: 0 <= j < k ==> s[j] != c
  {
    if s == [] then 0 else if s[0] == c then 0 else 1 + IndexOf(s[1..], c)
  }

  lemma {:induction false} IndexOfFirst(a: string, c: char, b: string)
    requires forall i :: 0 <= i < |a| ==> a[i] != c
    ensures IndexOf(a + [c] + b, c) == |a|
  {
    if a != [] {
      assert (a + [c] + b)[1..] == a[1..] + [c] + b;
      IndexOfFirst(a[1..], c, b);
    }
  }

  /** How a reader of the `VAR` section splits an entry into name and width. */
  function ParseFullName(s: string): (string, nat)
  {
    var k := IndexOf(s, ':');
    if k == |s| then (s, 1)
    else if AllDigits(s[k + 1..]) then (s[..k], ParseNat(s[k + 1..]))
    else (s, 1)
  }

  /** A `VAR` entry gives back the name and the width it was printed from. */
  lemma FullNameRoundTrip(name: string, busSize: nat)
    requires forall i :: 0 <= i < |name| ==> name[i] != ':'
    ensures ParseFullName(FullName(name, busSize)) == (name, busSize)
  {
    if busSize != 1 {
      var s := FullName(name, busSize);
      var digits := NatToString(busSize);
      assert s == name + [':'] + digits;
      IndexOfFirst(name, ':', digits);
      assert s[|name| + 1..] == digits;
      assert s[..|name|] == name;
      ParseNatToString(busSize);
    } else {
      assert IndexOf(name, ':') == |name|;
    }
  }

  lemma LNameInjective(a: nat, b: nat)
    ensures LName(a) == LName(b) ==> a == b
  {
    if LName(a) == LName(b) {
      assert LName(a)[3..] == NatToString(a);
      assert LName(b)[3..] == NatToString(b);
      NatToStringInjective(a, b);
    }
  }

  /** The second slice of a slice is not renamed again: its name carries `_slc_`. */
  lemma SliceNameMarked(name: string, lo: nat, hi: nat)
    ensures Contains(SliceName(name, lo, hi), "_slc_")
    ensures StartsWith(SliceName(name, lo, hi), "_")
  {
    var p := DerivedPrefix(name) + name;
    var s := SliceName(name, lo, hi);
    assert s == p + "_slc_" + (NatToString(lo) + "_" + NatToString(hi));
    assert s[|p|..|p| + 5] == "_slc_";
    assert OccursAt(s, "_slc_", |p|);
    assert |p| >= 1 && p[0] == '_';
    assert s[..1] == "_";
  }

  lemma SelectNameStartsWithUnderscore(name: string, i: nat)
    ensures StartsWith(SelectName(name, i), "_")
  {
    var p := DerivedPrefix(name) + name;
    assert |p| >= 1 && p[0] == '_';
    assert SelectName(name, i)[..1] == "_";
  }

  /** The names in `names` of the form `_l_<m>` with m >= c: finitely many, and
      the equation-name loop removes one of them from view at every retry. */
  ghost function TakenFrom(names: set<string>, c: nat): set<string>
  {
    set s | s in names && exists m: nat :: c <= m && s == LName(m)
  }

  lemma TakenShrinks(names: set<string>, c: nat)
    requires LName(c) in names
    ensures TakenFrom(names, c + 1) < TakenFrom(names, c)
  {
    assert LName(c) in TakenFrom(names, c);
    if LName(c) in TakenFrom(names, c + 1) {
      var m: nat :| c + 1 <= m && LName(c) == LName(m);
      LNameInjective(c, m);
      assert false;
    }
  }

  /** Counter values `c0 .. c1-1` went to the loop that finds an equation name:
      every candidate but the last was taken, and the last is free. */
  ghost predicate FirstFreeLName(c0: nat, c1: nat, names: set<string>) {
    && c0 < c1
    && LName(c1 - 1) !in names
    && forall m :: c0 <= m < c1 - 1 ==> LName(m) in names
  }

  /** When the first candidate is free, the loop takes it and consumes one counter value. */
  lemma FirstCandidateFree(c0: nat, c1: nat, names: set<string>)
    requires FirstFreeLName(c0, c1, names) && LName(c0) !in names
    ensures c1 == c0 + 1
  {
  }
}
