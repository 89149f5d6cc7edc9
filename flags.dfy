/** The selection flags of the "select corrections" panel, one bool per
    correction record, and the pure steps that compute them: resizing to the
    current list, the select/deselect-all rule, the checkbox overlay and the
    order-preserving filter that keeps the selected records. */
module Flags {
  import opened Records

  function Min(a: nat, b: nat): (r: nat) { if a <= b then a else b }

  /** Python's `all(...)` over a list of bools; true of the empty list. */
  predicate AllTrue(flags: seq<bool>)
  {
    forall i :: 0 <= i < |flags| ==> flags[i]
  }

  /** `[False] * n` */
  function Falses(n: nat): (r: seq<bool>)
    ensures |r| == n && forall i :: 0 <= i < n ==> !r[i]
  {
    seq(n, _ => false)
  }

  /** `[True] * n` */
  function Trues(n: nat): (r: seq<bool>)
    ensures |r| == n && AllTrue(r)
  {
    seq(n, _ => true)
  }

  /** The flags after the panel's resize step for a list of `n` corrections:
      absent flags become all False; otherwise the list is extended with False
      or cut to its first `n` entries. */
  function Resized(flags: Option<seq<bool>>, n: nat): (r: seq<bool>)
    ensures |r| == n
    ensures flags.None? ==> forall i :: 0 <= i < n ==> !r[i]
    ensures flags.Some? ==> forall i :: 0 <= i < Min(|flags.value|, n) ==> r[i] == flags.value[i]
    ensures flags.Some? ==> forall i :: |flags.value| <= i < n ==> !r[i]
  {
    match flags
    case None => Falses(n)
    case Some(f) =>
      var diff := n - |f|;
      if diff > 0 then f + Falses(diff)
      else if diff < 0 then f[..n]
      else f
  }

  /** The select/deselect-all rule for `n` corrections: a checked box selects
      everything; an unchecked box deselects everything only when every flag is
      already set; otherwise the flags stay as they are. */
  function SelectAll(flags: seq<bool>, n: nat, checked: bool): (r: seq<bool>)
    ensures checked ==> |r| == n && AllTrue(r)
    ensures !checked && AllTrue(flags) ==> |r| == n && forall i :: 0 <= i < n ==> !r[i]
    ensures !checked && !AllTrue(flags) ==> r == flags
    ensures |flags| == n ==> |r| == n
  {
    if checked then Trues(n)
    else if AllTrue(flags) then Falses(n)
    else flags
  }

  /** The flags after the per-row checkbox loop. A row whose widget holds a
      user value takes that value; a freshly created widget returns the default
      it was given, which is the stored flag. */
  function Overlay(flags: seq<bool>, boxes: seq<Option<bool>>): (r: seq<bool>)
    requires |boxes| == |flags|
    ensures |r| == |flags|
    ensures forall i :: 0 <= i < |r| && boxes[i].Some? ==> r[i] == boxes[i].value
    ensures forall i :: 0 <= i < |r| && boxes[i].None? ==> r[i] == flags[i]
  {
    seq(|flags|, i requires 0 <= i < |flags| => if boxes[i].Some? then boxes[i].value else flags[i])
  }

  /** The records among the first `m` whose flag is set, in order. */
  function Keep<T>(cs: seq<T>, flags: seq<bool>, m: nat): (r: seq<T>)
    requires m <= |cs| && m <= |flags|
    ensures |r| <= m
    decreases m
  {
    if m == 0 then []
    else Keep(cs, flags, m - 1) + (if flags[m - 1] then [cs[m - 1]] else [])
  }

  /** `[c for c, keep in zip(cs, flags) if keep]`: zip stops at the shorter
      list. */
  function Filter<T>(cs: seq<T>, flags: seq<bool>): (r: seq<T>)
    ensures |r| <= |cs|
  {
    Keep(cs, flags, Min(|cs|, |flags|))
  }

  /** The positions below `m` whose flag is set, ascending. */
  function Indices(flags: seq<bool>, m: nat): (r: seq<nat>)
    requires m <= |flags|
    ensures forall k :: 0 <= k < |r| ==> r[k] < m && flags[r[k]]
    ensures forall j, k :: 0 <= j < k < |r| ==> r[j] < r[k]
    ensures forall i :: 0 <= i < m && flags[i] ==> i in r
    decreases m
  {
    if m == 0 then []
    else Indices(flags, m - 1) + (if flags[m - 1] then [m - 1] else [])
  }

  /** `Keep` picks exactly the records at the flagged positions, in order. */
  lemma {:induction false} KeepAtIndices<T>(cs: seq<T>, flags: seq<bool>, m: nat)
    requires m <= |cs| && m <= |flags|
    ensures |Keep(cs, flags, m)| == |Indices(flags, m)|
    ensures forall k :: 0 <= k < |Keep(cs, flags, m)| ==> Keep(cs, flags, m)[k] == cs[Indices(flags, m)[k]]
    decreases m
  {
    if m > 0 {
      KeepAtIndices(cs, flags, m - 1);
    }
  }

  /** The filtered list is the order-preserving subsequence of the records
      whose flag is set: its k-th element is the record at the k-th flagged
      position, the positions ascend, and every flagged position is used. */
  lemma FilterIsSelectedSubsequence<T>(cs: seq<T>, flags: seq<bool>)
    ensures var m := Min(|cs|, |flags|);
            var idx := Indices(flags, m);
            |Filter(cs, flags)| == |idx| &&
            (forall k :: 0 <= k < |idx| ==> Filter(cs, flags)[k] == cs[idx[k]]) &&
            (forall j, k :: 0 <= j < k < |idx| ==> idx[j] < idx[k]) &&
            (forall i :: 0 <= i < m ==> (i in idx <==> flags[i]))
  {
    KeepAtIndices(cs, flags, Min(|cs|, |flags|));
  }

  /** Every kept record is one of the corrections. */
  lemma FilterMembers<T>(cs: seq<T>, flags: seq<bool>, x: T)
    requires x in Filter(cs, flags)
    ensures x in cs
  {
    var m := Min(|cs|, |flags|);
    KeepAtIndices(cs, flags, m);
    var k :| 0 <= k < |Filter(cs, flags)| && Filter(cs, flags)[k] == x;
    assert cs[Indices(flags, m)[k]] == x;
  }

  lemma {:induction false} KeepCount<T>(cs: seq<T>, flags: seq<bool>, m: nat)
    requires m <= |cs| && m <= |flags|
    ensures |Keep(cs, flags, m)| == multiset(flags[..m])[true]
    decreases m
  {
    if m > 0 {
      KeepCount(cs, flags, m - 1);
      assert flags[..m] == flags[..m - 1] + [flags[m - 1]];
    }
  }

  /** With one flag per record, the filtered list has as many entries as
      there are True flags. */
  lemma FilterLength<T>(cs: seq<T>, flags: seq<bool>)
    requires |flags| == |cs|
    ensures |Filter(cs, flags)| == multiset(flags)[true]
  {
    KeepCount(cs, flags, |cs|);
    assert flags[..|cs|] == flags;
  }

  lemma {:induction false} KeepAll<T>(cs: seq<T>, flags: seq<bool>, m: nat)
    requires m <= |cs| && m <= |flags| && AllTrue(flags)
    ensures Keep(cs, flags, m) == cs[..m]
    decreases m
  {
    if m > 0 {
      KeepAll(cs, flags, m - 1);
      assert cs[..m] == cs[..m - 1] + [cs[m - 1]];
    }
  }

  /** Selecting every record keeps the whole list. */
  lemma FilterAllSelected<T>(cs: seq<T>, flags: seq<bool>)
    requires |flags| == |cs| && AllTrue(flags)
    ensures Filter(cs, flags) == cs
  {
    KeepAll(cs, flags, |cs|);
  }

  lemma {:induction false} KeepNone<T>(cs: seq<T>, flags: seq<bool>, m: nat)
    requires m <= |cs| && m <= |flags|
    requires forall i :: 0 <= i < |flags| ==> !flags[i]
    ensures Keep(cs, flags, m) == []
    decreases m
  {
    if m > 0 {
      KeepNone(cs, flags, m - 1);
    }
  }

  /** Selecting nothing keeps nothing. */
  lemma FilterNoneSelected<T>(cs: seq<T>, flags: seq<bool>)
    requires forall i :: 0 <= i < |flags| ==> !flags[i]
    ensures Filter(cs, flags) == []
  {
    KeepNone(cs, flags, Min(|cs|, |flags|));
  }

  /** Checking the master box and then unchecking it selects everything and
      then nothing. */
  lemma CheckThenUncheck(flags: seq<bool>, n: nat)
    ensures SelectAll(flags, n, true) == Trues(n)
    ensures SelectAll(SelectAll(flags, n, true), n, false) == Falses(n)
  {
  }

  /** Unchecking the master box while some flag is False changes nothing, even
      if the box was checked before: the rule only deselects from all-True. */
  lemma UncheckPartialIsNoOp(flags: seq<bool>, n: nat, i: nat)
    requires i < |flags| && !flags[i]
    ensures SelectAll(flags, n, false) == flags
  {
  }

  /** Confirming a selection does not re-index the flags: on the next pass
      the resize keeps the old flags' first entries, by position, for the
      shorter list. */
  lemma ConfirmKeepsStaleFlags<T>(cs: seq<T>, flags: seq<bool>)
    requires |flags| == |cs|
    ensures Resized(Some(flags), |Filter(cs, flags)|) == flags[..|Filter(cs, flags)|]
  {
  }

  /** A concrete case of the above: of two records only the second is
      selected and kept, yet its flag on the next pass is the first row's
      False. */
  lemma KeptRecordShowsUnselected<T>(a: T, b: T)
    ensures Filter([a, b], [false, true]) == [b]
    ensures Resized(Some([false, true]), 1) == [false]
  {
    assert Keep([a, b], [false, true], 1) == [];
  }
}
