/** Trimming a fact sheet to a size budget. */
module FactSheet {
  import opened Options

  /** A pack is a list of rows or anything else; only lists are trimmed. */
  datatype Pack = Rows(rows: seq<nat>) | Other(value: nat)

  /** The packs in the dictionary's order; keys are unique and none is `_truncated`, which
      is the second field. */
  datatype Sheet = Sheet(keys: seq<nat>, packs: seq<Pack>, truncated: Option<seq<nat>>)

  predicate Valid(s: Sheet) {
    && |s.keys| == |s.packs|
    && forall i, j :: 0 <= i < j < |s.keys| ==> s.keys[i] != s.keys[j]
  }

  predicate Trimmable(p: Pack) { p.Rows? && |p.rows| > 1 }

  /** Serialized sizes: of a whole sheet and of one list of rows. */
  datatype Sizes = Sizes(sheet: Sheet -> int, rows: seq<nat> -> int)

  /** The first of the longest trimmable packs among the first n. */
  function Longest(z: Sizes, s: Sheet, n: nat): (r: Option<nat>)
    requires n <= |s.packs|
    ensures r.Some? ==> r.value < n && Trimmable(s.packs[r.value])
    ensures r.None? ==> forall i :: 0 <= i < n ==> !Trimmable(s.packs[i])
    ensures r.Some? ==> forall i :: 0 <= i < n && Trimmable(s.packs[i]) ==>
      z.rows(s.packs[i].rows) <= z.rows(s.packs[r.value].rows)
    ensures r.Some? ==> forall i :: 0 <= i < r.value && Trimmable(s.packs[i]) ==>
      z.rows(s.packs[i].rows) < z.rows(s.packs[r.value].rows)
  {
    if n == 0 then None
    else
      var best := Longest(z, s, n - 1);
      if !Trimmable(s.packs[n - 1]) then best
      else if best.Some? && z.rows(s.packs[n - 1].rows) <= z.rows(s.packs[best.value].rows) then best
      else Some(n - 1)
  }

  function Add(names: seq<nat>, k: nat): seq<nat> { if k in names then names else names + [k] }

  /** Halve one pack and name it; `names` is the list the loop builds. */
  function Cut(s: Sheet, names: seq<nat>, i: nat): Sheet
    requires Valid(s) && i < |s.packs| && Trimmable(s.packs[i])
  {
    var rows := s.packs[i].rows;
    Sheet(s.keys, s.packs[i := Rows(rows[..|rows| / 2])], Some(Add(names, s.keys[i])))
  }

  function Total(packs: seq<Pack>): nat {
    if packs == [] then 0
    else
      var last := packs[|packs| - 1];
      Total(packs[..|packs| - 1]) + if last.Rows? then |last.rows| else 0
  }

  lemma {:induction false} TotalUpdate(packs: seq<Pack>, i: nat, rows: seq<nat>)
    requires i < |packs| && packs[i].Rows?
    ensures Total(packs[i := Rows(rows)]) == Total(packs) - |packs[i].rows| + |rows|
    decreases |packs|
  {
    var front := packs[..|packs| - 1];
    if i < |front| {
      TotalUpdate(front, i, rows);
      assert packs[i := Rows(rows)][..|packs| - 1] == front[i := Rows(rows)];
    } else {
      assert packs[i := Rows(rows)][..|packs| - 1] == front;
    }
  }

  /** Keep cutting the longest trimmable pack while the sheet is over budget. The total
      number of rows falls with every cut, whatever the sizes are. */
  function Truncate(z: Sizes, s: Sheet, names: seq<nat>, budget: int): Sheet
    requires Valid(s)
    decreases Total(s.packs)
  {
    if z.sheet(s) <= budget then s
    else
      var longest := Longest(z, s, |s.packs|);
      if longest.None? then s
      else
        var i := longest.value;
        TotalUpdate(s.packs, i, s.packs[i].rows[..|s.packs[i].rows| / 2]);
        Truncate(z, Cut(s, names, i), Add(names, s.keys[i]), budget)
  }

  // ------------------------------------------------------------ properties

  predicate Shortened(p: Pack, q: Pack) { p.Rows? && q.Rows? && |q.rows| < |p.rows| }

  /** m is n halved any number of times, rounding down and never below one. */
  predicate Halved(n: nat, m: nat) { m == n || (n > 1 && Halved(n / 2, m)) }

  /** q is p, or what repeated halving leaves of its beginning. */
  predicate TrimmedTo(p: Pack, q: Pack) {
    if p.Rows? then
      q.Rows? && q.rows <= p.rows && (p.rows != [] ==> q.rows != []) && Halved(|p.rows|, |q.rows|)
    else q == p
  }

  lemma {:induction false} HalvedOnceMore(n: nat, m: nat)
    requires Halved(n, m) && m > 1
    ensures Halved(n, m / 2)
    decreases n
  {
    if m != n {
      HalvedOnceMore(n / 2, m);
    }
  }

  /** What any number of cuts may make of `orig`: same keys, every list a non-empty
      beginning of the original one, and the note naming exactly the shortened packs. */
  ghost predicate CutFrom(orig: Sheet, s: Sheet, names: seq<nat>) {
    && Valid(orig) && Valid(s) && s.keys == orig.keys
    && (forall i :: 0 <= i < |s.packs| ==> TrimmedTo(orig.packs[i], s.packs[i]))
    && (forall i :: 0 <= i < |s.packs| ==> (s.keys[i] in names <==> Shortened(orig.packs[i], s.packs[i])))
    && (forall k :: k in names ==> k in s.keys)
    && (forall i, j :: 0 <= i < j < |names| ==> names[i] != names[j])
    && s.truncated == if names == [] then orig.truncated else Some(names)
  }

  lemma {:induction false} CutKeeps(orig: Sheet, s: Sheet, names: seq<nat>, i: nat)
    requires CutFrom(orig, s, names) && i < |s.packs| && Trimmable(s.packs[i])
    ensures CutFrom(orig, Cut(s, names, i), Add(names, s.keys[i]))
  {
    HalvedOnceMore(|orig.packs[i].rows|, |s.packs[i].rows|);
  }

  /** The result fits the budget, or no list in it has more than one row; it is cut from
      the input and from nothing else. */
  lemma {:induction false} TruncateFits(z: Sizes, orig: Sheet, s: Sheet, names: seq<nat>, budget: int)
    requires CutFrom(orig, s, names)
    ensures var r := Truncate(z, s, names, budget);
      && (z.sheet(r) <= budget || forall i :: 0 <= i < |r.packs| ==> !Trimmable(r.packs[i]))
      && exists named :: CutFrom(orig, r, named)
    decreases Total(s.packs)
  {
    hide CutFrom, Cut, Longest;
    assert Valid(s) by {
      CutIsValid(orig, s, names);
    }
    if z.sheet(s) > budget {
      var longest := Longest(z, s, |s.packs|);
      if longest.Some? {
        var i := longest.value;
        TotalUpdate(s.packs, i, s.packs[i].rows[..|s.packs[i].rows| / 2]);
        CutKeeps(orig, s, names, i);
        CutShape(s, names, i);
        TruncateFits(z, orig, Cut(s, names, i), Add(names, s.keys[i]), budget);
      }
    }
  }

  lemma {:induction false} CutIsValid(orig: Sheet, s: Sheet, names: seq<nat>)
    requires CutFrom(orig, s, names)
    ensures Valid(s)
  {
  }

  lemma {:induction false} CutShape(s: Sheet, names: seq<nat>, i: nat)
    requires Valid(s) && i < |s.packs| && Trimmable(s.packs[i])
    ensures Cut(s, names, i).packs == s.packs[i := Rows(s.packs[i].rows[..|s.packs[i].rows| / 2])]
  {
  }

  /** The whole call: from an untouched sheet. */
  lemma {:induction false} SheetIsTrimmedToFit(z: Sizes, s: Sheet, budget: int)
    requires Valid(s)
    ensures var r := Truncate(z, s, [], budget);
      && (z.sheet(r) <= budget || forall i :: 0 <= i < |r.packs| ==> !Trimmable(r.packs[i]))
      && (exists named :: CutFrom(s, r, named))
      && (z.sheet(s) <= budget ==> r == s)
  {
    TruncateFits(z, s, s, [], budget);
  }

  // ----------------------------------------------------- why it was cut

  /** Pack k is the first of the longest lists that have more than one row. */
  predicate IsLongest(z: Sizes, packs: seq<Pack>, k: int) {
    && 0 <= k < |packs| && packs[k].Rows? && |packs[k].rows| > 1
    && forall i :: 0 <= i < |packs| && packs[i].Rows? && |packs[i].rows| > 1 ==>
         z.rows(packs[i].rows) <= z.rows(packs[k].rows) && (i < k ==> z.rows(packs[i].rows) < z.rows(packs[k].rows))
  }

  /** From s to u one list was halved, the longest, and s was over budget. */
  ghost predicate NeededCut(z: Sizes, budget: int, s: Sheet, u: Sheet) {
    && z.sheet(s) > budget
    && exists k :: IsLongest(z, s.packs, k) && u.packs == s.packs[k := Rows(s.packs[k].rows[..|s.packs[k].rows| / 2])]
  }

  /** A trimming, sheet by sheet. */
  ghost predicate Trimming(z: Sizes, budget: int, trace: seq<Sheet>) {
    trace != [] && forall i :: 0 <= i < |trace| - 1 ==> NeededCut(z, budget, trace[i], trace[i + 1])
  }

  lemma {:induction false} TrimmingFrom(z: Sizes, s: Sheet, names: seq<nat>, budget: int) returns (trace: seq<Sheet>)
    requires Valid(s)
    ensures Trimming(z, budget, trace) && trace[0] == s && trace[|trace| - 1] == Truncate(z, s, names, budget)
    decreases Total(s.packs)
  {
    trace := [s];
    if z.sheet(s) > budget {
      var longest := Longest(z, s, |s.packs|);
      if longest.Some? {
        var i := longest.value;
        TotalUpdate(s.packs, i, s.packs[i].rows[..|s.packs[i].rows| / 2]);
        var u := Cut(s, names, i);
        var rest := TrimmingFrom(z, u, Add(names, s.keys[i]), budget);
        assert IsLongest(z, s.packs, i);
        assert NeededCut(z, budget, s, u);
        hide NeededCut, IsLongest, Longest, Cut, Truncate;
        trace := [s] + rest;
        forall k | 0 <= k < |trace| - 1 ensures NeededCut(z, budget, trace[k], trace[k + 1]) {
          if k > 0 {
            assert trace[k] == rest[k - 1] && trace[k + 1] == rest[k];
          }
        }
        assert Truncate(z, s, names, budget) == Truncate(z, u, Add(names, s.keys[i]), budget) by {
          TruncateCuts(z, s, names, budget, i);
        }
      }
    }
  }

  lemma {:induction false} TruncateCuts(z: Sizes, s: Sheet, names: seq<nat>, budget: int, i: nat)
    requires Valid(s) && z.sheet(s) > budget && Longest(z, s, |s.packs|) == Some(i)
    ensures Truncate(z, s, names, budget) == Truncate(z, Cut(s, names, i), Add(names, s.keys[i]), budget)
  {
    hide Cut, Longest;
  }

  /** Every cut was made on a sheet still over budget and halved its longest list, the first
      among equals; and it goes on until the sheet fits or no list has two rows. */
  lemma {:induction false} EveryCutWasNeeded(z: Sizes, s: Sheet, budget: int)
    requires Valid(s)
    ensures var r := Truncate(z, s, [], budget);
      exists trace :: Trimming(z, budget, trace) && trace[0] == s && trace[|trace| - 1] == r
    ensures var r := Truncate(z, s, [], budget);
      z.sheet(r) <= budget || forall i :: 0 <= i < |r.packs| && r.packs[i].Rows? ==> |r.packs[i].rows| <= 1
  {
    SheetIsTrimmedToFit(z, s, budget);
    var trace := TrimmingFrom(z, s, [], budget);
    hide Truncate, CutFrom, Trimming;
  }

  method TruncateFactSheet(z: Sizes, sheet: Sheet, budget: int) returns (s: Sheet)
    requires Valid(sheet)
    ensures s == Truncate(z, sheet, [], budget)
  {
    s := sheet;
    var names: seq<nat> := [];
    while z.sheet(s) > budget
      invariant Valid(s)
      invariant Truncate(z, s, names, budget) == Truncate(z, sheet, [], budget)
      decreases Total(s.packs)
    {
      var longest: Option<nat> := None;
      for i := 0 to |s.packs|
        invariant longest == Longest(z, s, i)
      {
        if Trimmable(s.packs[i])
           && (longest.None? || z.rows(s.packs[i].rows) > z.rows(s.packs[longest.value].rows))
        {
          longest := Some(i);
        }
      }
      if longest.None? {
        break;
      }
      var i := longest.value;
      TotalUpdate(s.packs, i, s.packs[i].rows[..|s.packs[i].rows| / 2]);
      s, names := Cut(s, names, i), Add(names, s.keys[i]);
    }
  }
}
