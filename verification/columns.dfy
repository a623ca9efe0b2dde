/**
 * Column-label handling of fetch_df: `_flatten`, which joins the levels of a
 * multi-level column index with "_", and `_pick`, which finds the column for a
 * key by case-insensitive matching in three passes (exact, suffix, substring).
 */
module Columns {
  import opened Wrappers
  import opened Strings

  /** The column axis of a frame: plain labels, or a multi-level index whose
      tuples hold one entry per level (None stands for Python's None). */
  datatype Header = Flat(names: seq<string>) | Multi(tuples: seq<seq<Option<string>>>)

  function Width(h: Header): nat {
    match h
    case Flat(names) => |names|
    case Multi(tuples) => |tuples|
  }

  /** The levels of one tuple that `_flatten` keeps: neither "" nor None, in order. */
  function KeptLevels(parts: seq<Option<string>>): (r: seq<string>)
    ensures |r| <= |parts|
  {
    if |parts| == 0 then []
    else
      (if parts[0].Some? && parts[0].value != "" then [parts[0].value] else [])
      + KeptLevels(parts[1..])
  }

  /** "_".join(xs) */
  function JoinLevels(xs: seq<string>): string {
    if |xs| == 0 then ""
    else if |xs| == 1 then xs[0]
    else xs[0] + "_" + JoinLevels(xs[1..])
  }

  function FlattenTuple(parts: seq<Option<string>>): string {
    JoinLevels(KeptLevels(parts))
  }

  /** The labels `_flatten` leaves on a frame: flat labels unchanged, tuples joined. */
  function Flatten(h: Header): (labels: seq<string>)
    ensures |labels| == Width(h)
    ensures h.Flat? ==> labels == h.names
    ensures h.Multi? ==> forall j :: 0 <= j < |h.tuples| ==> labels[j] == JoinLevels(KeptLevels(h.tuples[j]))
  {
    match h
    case Flat(names) => names
    case Multi(tuples) => seq(|tuples|, j requires 0 <= j < |tuples| => FlattenTuple(tuples[j]))
  }

  /** A level survives flattening exactly when it is present and non-empty. */
  lemma {:induction false} KeptLevelsExactly(parts: seq<Option<string>>, s: string)
    ensures s in KeptLevels(parts) <==> s != "" && Some(s) in parts
  {
    if |parts| > 0 {
      KeptLevelsExactly(parts[1..], s);
      assert parts == [parts[0]] + parts[1..];
    }
  }

  /** Levels are kept in their original order: flattening splits over concatenation. */
  lemma {:induction false} KeptLevelsAppend(a: seq<Option<string>>, b: seq<Option<string>>)
    ensures KeptLevels(a + b) == KeptLevels(a) + KeptLevels(b)
  {
    if |a| > 0 {
      assert (a + b)[1..] == a[1..] + b;
      KeptLevelsAppend(a[1..], b);
    } else {
      assert a + b == b;
    }
  }

  /** The usual two-level label of a downloaded frame, such as ("Open", "GC=F"). */
  lemma FlattenTwoLevels(field: string, symbol: string)
    requires field != ""
    ensures symbol != "" ==> FlattenTuple([Some(field), Some(symbol)]) == field + "_" + symbol
    ensures FlattenTuple([Some(field), Some("")]) == field
    ensures FlattenTuple([Some(field), None]) == field
  {
    var none: Option<string> := None;
    assert KeptLevels([Some(field), Some(symbol)]) == [field] + KeptLevels([Some(symbol)]) by {
      assert [Some(field), Some(symbol)][1..] == [Some(symbol)];
    }
    assert KeptLevels([Some(symbol)]) == (if symbol != "" then [symbol] else []) by {
      assert [Some(symbol)][1..] == [];
    }
    assert KeptLevels([Some(field), Some("")]) == [field] by {
      assert [Some(field), Some("")][1..] == [Some("")];
      assert [Some("")][1..] == [];
    }
    assert KeptLevels([Some(field), none]) == [field] by {
      assert [Some(field), none][1..] == [none];
      assert [none][1..] == [];
    }
    if symbol != "" {
      assert KeptLevels([Some(field), Some(symbol)]) == [field, symbol];
      assert [field, symbol][1..] == [symbol];
      assert JoinLevels([field, symbol]) == field + "_" + JoinLevels([symbol]);
    }
  }

  lemma ContainsAfter(pre: string, s: string, sub: string)
    requires Contains(s, sub)
    ensures Contains(pre + s, sub)
  {
    var i :| 0 <= i <= |s| - |sub| && OccursAt(s, sub, i);
    assert (pre + s)[|pre| + i..|pre| + i + |sub|] == s[i..i + |sub|];
    assert OccursAt(pre + s, sub, |pre| + i);
  }

  /** Every joined level occurs inside the joined label. */
  lemma {:induction false} JoinLevelsContains(xs: seq<string>, k: nat)
    requires k < |xs|
    ensures Contains(JoinLevels(xs), xs[k])
  {
    if |xs| == 1 {
      assert JoinLevels(xs) == xs[0] + "";
      ContainsPrefix(xs[0], "");
    } else if k == 0 {
      ContainsPrefix(xs[0], "_" + JoinLevels(xs[1..]));
      assert JoinLevels(xs) == xs[0] + ("_" + JoinLevels(xs[1..]));
    } else {
      JoinLevelsContains(xs[1..], k - 1);
      ContainsAfter(xs[0] + "_", JoinLevels(xs[1..]), xs[k]);
    }
  }

  lemma LowerContains(s: string, sub: string)
    requires Contains(s, sub)
    ensures Contains(Lower(s), Lower(sub))
  {
    var i :| 0 <= i <= |s| - |sub| && OccursAt(s, sub, i);
    assert Lower(s)[i..i + |sub|] == Lower(sub);
    assert OccursAt(Lower(s), Lower(sub), i);
  }

  // ---------------------------------------------------------------- _pick

  /** The three passes of `_pick`, in the order they are tried. */
  datatype MatchKind = ExactMatch | SuffixMatch | SubstringMatch

  /** Whether a label matches a key in one pass; both sides are lower-cased. */
  predicate Matches(kind: MatchKind, name: string, key: string) {
    var l := Lower(name); var k := Lower(key);
    match kind
    case ExactMatch => l == k
    case SuffixMatch => EndsWith(l, k)
    case SubstringMatch => Contains(l, k)
  }

  /** An exact match is a suffix match, and a suffix match is a substring match. */
  lemma MatchIsSubstring(kind: MatchKind, name: string, key: string)
    requires Matches(kind, name, key)
    ensures Matches(SubstringMatch, name, key)
  {
    if kind == ExactMatch {
      EqualEndsWith(Lower(name), Lower(key));
    }
    if kind != SubstringMatch {
      EndsWithContains(Lower(name), Lower(key));
    }
  }

  /** The first label at or after `from` that matches in the given pass. */
  function FirstFrom(kind: MatchKind, labels: seq<string>, key: string, from: nat): (r: Option<nat>)
    requires from <= |labels|
    decreases |labels| - from
    ensures r.Some? ==> from <= r.value < |labels| && Matches(kind, labels[r.value], key)
    ensures r.Some? ==> forall m :: from <= m < r.value ==> !Matches(kind, labels[m], key)
    ensures r.None? ==> forall m :: from <= m < |labels| ==> !Matches(kind, labels[m], key)
  {
    if from == |labels| then None
    else if Matches(kind, labels[from], key) then Some(from)
    else FirstFrom(kind, labels, key, from + 1)
  }

  /** The column `_pick` returns, as an index into the labels; None is its KeyError. */
  function Resolve(labels: seq<string>, key: string): (r: Option<nat>)
    ensures r.Some? ==> r.value < |labels| && Matches(SubstringMatch, labels[r.value], key)
    ensures r.None? <==> forall j :: 0 <= j < |labels| ==> !Matches(SubstringMatch, labels[j], key)
  {
    match FirstFrom(ExactMatch, labels, key, 0)
    case Some(j) => MatchIsSubstring(ExactMatch, labels[j], key); Some(j)
    case None =>
      match FirstFrom(SuffixMatch, labels, key, 0)
      case Some(j) => MatchIsSubstring(SuffixMatch, labels[j], key); Some(j)
      case None => FirstFrom(SubstringMatch, labels, key, 0)
  }

  /** j is the first label that matches in the pass. */
  predicate FirstAt(kind: MatchKind, labels: seq<string>, key: string, j: nat) {
    j < |labels| && Matches(kind, labels[j], key)
    && forall m :: 0 <= m < j ==> !Matches(kind, labels[m], key)
  }

  predicate NoneMatch(kind: MatchKind, labels: seq<string>, key: string) {
    forall m :: 0 <= m < |labels| ==> !Matches(kind, labels[m], key)
  }

  /** Exact beats suffix, suffix beats substring, and within a pass the first column wins. */
  lemma ResolvePrecedence(labels: seq<string>, key: string, j: nat)
    ensures Resolve(labels, key) == Some(j) <==>
      || FirstAt(ExactMatch, labels, key, j)
      || (NoneMatch(ExactMatch, labels, key) && FirstAt(SuffixMatch, labels, key, j))
      || (NoneMatch(ExactMatch, labels, key) && NoneMatch(SuffixMatch, labels, key)
          && FirstAt(SubstringMatch, labels, key, j))
  {
  }

  /** The pass results depend on the labels and the key only through their lower-cased form. */
  lemma {:induction false} FirstFromIgnoresCase(kind: MatchKind, a: seq<string>, b: seq<string>, key: string, key2: string, from: nat)
    requires |a| == |b| && from <= |a|
    requires forall j :: 0 <= j < |a| ==> Lower(a[j]) == Lower(b[j])
    requires Lower(key) == Lower(key2)
    decreases |a| - from
    ensures FirstFrom(kind, a, key, from) == FirstFrom(kind, b, key2, from)
  {
    if from < |a| {
      assert Matches(kind, a[from], key) == Matches(kind, b[from], key2);
      FirstFromIgnoresCase(kind, a, b, key, key2, from + 1);
    }
  }

  /** `_pick` is case-insensitive in both the labels and the key. */
  lemma ResolveIgnoresCase(a: seq<string>, b: seq<string>, key: string, key2: string)
    requires |a| == |b|
    requires forall j :: 0 <= j < |a| ==> Lower(a[j]) == Lower(b[j])
    requires Lower(key) == Lower(key2)
    ensures Resolve(a, key) == Resolve(b, key2)
  {
    FirstFromIgnoresCase(ExactMatch, a, b, key, key2, 0);
    FirstFromIgnoresCase(SuffixMatch, a, b, key, key2, 0);
    FirstFromIgnoresCase(SubstringMatch, a, b, key, key2, 0);
  }

  /** A key contained, ignoring case, in one level of a multi-level label is
      always resolved, whatever other levels surround it. */
  lemma FlattenedLevelResolves(tuples: seq<seq<Option<string>>>, j: nat, field: string, key: string)
    requires j < |tuples| && field != "" && Some(field) in tuples[j]
    requires Contains(Lower(field), Lower(key))
    ensures Resolve(Flatten(Multi(tuples)), key).Some?
  {
    var labels := Flatten(Multi(tuples));
    var kept := KeptLevels(tuples[j]);
    KeptLevelsExactly(tuples[j], field);
    var k :| 0 <= k < |kept| && kept[k] == field;
    JoinLevelsContains(kept, k);
    LowerContains(labels[j], field);
    ContainsTrans(Lower(labels[j]), Lower(field), Lower(key));
    assert Matches(SubstringMatch, labels[j], key);
  }

  /** How `_flatten` labels the Adj Close and Close columns of a download for GC=F. */
  lemma AdjCloseLabels()
    ensures Flatten(Multi([[Some("Adj Close"), Some("GC=F")], [Some("Close"), Some("GC=F")]]))
            == ["Adj Close_GC=F", "Close_GC=F"]
  {
    var tuples := [[Some("Adj Close"), Some("GC=F")], [Some("Close"), Some("GC=F")]];
    FlattenTwoLevels("Adj Close", "GC=F");
    FlattenTwoLevels("Close", "GC=F");
    assert "Adj Close" + "_" + "GC=F" == "Adj Close_GC=F";
    assert "Close" + "_" + "GC=F" == "Close_GC=F";
    assert Flatten(Multi(tuples))[0] == FlattenTuple(tuples[0]);
    assert Flatten(Multi(tuples))[1] == FlattenTuple(tuples[1]);
  }

  // How the labels of a flattened GC=F download compare with the key "close".

  lemma DatetimeLacksClose()
    ensures !Matches(SubstringMatch, "Datetime", "close")
  {
    assert Lower("close") == "close";
    assert Lower("Datetime") == "datetime";
    forall i | 0 <= i <= 3 ensures !OccursAt("datetime", "close", i) {
      assert "datetime"[i] != 'c';
    }
  }

  lemma AdjCloseHoldsClose()
    ensures !Matches(ExactMatch, "Adj Close_GC=F", "close") && !Matches(SuffixMatch, "Adj Close_GC=F", "close")
    ensures Matches(SubstringMatch, "Adj Close_GC=F", "close")
  {
    assert Lower("close") == "close";
    assert Lower("Adj Close_GC=F") == "adj close_gc=f";
    assert OccursAt("adj close_gc=f", "close", 4);
    assert "adj close_gc=f"[13] != 'e';
  }

  lemma CloseLabelDoesNotEndInClose()
    ensures !Matches(ExactMatch, "Close_GC=F", "close") && !Matches(SuffixMatch, "Close_GC=F", "close")
  {
    assert Lower("close") == "close";
    assert Lower("Close_GC=F") == "close_gc=f";
    assert "close_gc=f"[9] != 'e';
  }

  lemma CloseOnAdjCloseLabels()
    ensures Resolve(["Datetime", "Adj Close_GC=F", "Close_GC=F"], "close") == Some(1)
  {
    var labels := ["Datetime", "Adj Close_GC=F", "Close_GC=F"];
    DatetimeLacksClose();
    forall kind | Matches(kind, "Datetime", "close") ensures false {
      MatchIsSubstring(kind, "Datetime", "close");
    }
    AdjCloseHoldsClose();
    CloseLabelDoesNotEndInClose();
    assert FirstFrom(ExactMatch, labels, "close", 0).None?;
    assert FirstFrom(SuffixMatch, labels, "close", 0).None?;
    assert FirstFrom(SubstringMatch, labels, "close", 0) == Some(1);
  }

  /** With the column layout yf.download gives when Adj Close precedes Close,
      flattened and with the index reset, "close" is picked from the Adj Close
      column: no label is "close" or ends with it, and the substring pass meets
      "Adj Close_GC=F" first. */
  lemma AdjCloseShadowsClose()
    ensures Resolve(["Datetime"] + Flatten(Multi([[Some("Adj Close"), Some("GC=F")], [Some("Close"), Some("GC=F")]])),
                    "close") == Some(1)
  {
    AdjCloseLabels();
    assert ["Datetime"] + ["Adj Close_GC=F", "Close_GC=F"] == ["Datetime", "Adj Close_GC=F", "Close_GC=F"];
    CloseOnAdjCloseLabels();
  }

  /** The three scans of `_pick`, each returning at the first hit. */
  method Pick(labels: seq<string>, key: string) returns (r: Option<nat>)
    ensures r == Resolve(labels, key)
  {
    var k := Lower(key);
    for i := 0 to |labels|
      invariant forall m :: 0 <= m < i ==> !Matches(ExactMatch, labels[m], key)
    {
      if Lower(labels[i]) == k {
        return Some(i);
      }
    }
    for i := 0 to |labels|
      invariant forall m :: 0 <= m < i ==> !Matches(SuffixMatch, labels[m], key)
    {
      if EndsWith(Lower(labels[i]), k) {
        return Some(i);
      }
    }
    for i := 0 to |labels|
      invariant forall m :: 0 <= m < i ==> !Matches(SubstringMatch, labels[m], key)
    {
      if Contains(Lower(labels[i]), k) {
        return Some(i);
      }
    }
    return None;
  }
}
