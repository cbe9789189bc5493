/**
 * What NewPlan extracts from the unit list in one pass: the roots in order,
 * the last data source, and the transform ids of the units that have one.
 * Each is a function over the list, characterised by its contract.
 */
module Discovery {

  import opened Wrappers
  import opened Types

  predicate IsRoot(u: Unit) {
    u.Unit? && (u.kind.Root? || u.kind.DataSource?)
  }

  predicate IsSource(u: Unit) {
    u.Unit? && u.kind.DataSource?
  }

  predicate HasPID(u: Unit) {
    u.Unit? && u.pid.Some?
  }

  /** No entry of the list is nil. */
  predicate NoNil(units: seq<Unit>) {
    forall i :: 0 <= i < |units| ==> units[i].Unit?
  }

  /** The indices of the elements of `s` that satisfy `p`, in increasing order. */
  function Where<T>(s: seq<T>, p: T -> bool): (r: seq<nat>)
    ensures forall k :: 0 <= k < |r| ==> r[k] < |s| && p(s[r[k]])
    ensures forall k, l :: 0 <= k < l < |r| ==> r[k] < r[l]
    ensures forall i :: 0 <= i < |s| && p(s[i]) ==> i in r
  {
    if s == [] then []
    else Where(s[..|s| - 1], p) + (if p(s[|s| - 1]) then [|s| - 1] else [])
  }

  /** Nothing satisfies `p`: nothing is selected. */
  lemma {:induction false} WhereNone<T>(s: seq<T>, p: T -> bool)
    requires forall i :: 0 <= i < |s| ==> !p(s[i])
    ensures Where(s, p) == []
  {
    if s != [] {
      WhereNone(s[..|s| - 1], p);
    }
  }

  /** Only the element at `u` satisfies `p`: exactly `u` is selected. */
  lemma {:induction false} WhereOnly<T>(s: seq<T>, p: T -> bool, u: nat)
    requires u < |s| && p(s[u])
    requires forall i :: 0 <= i < |s| && i != u ==> !p(s[i])
    ensures Where(s, p) == [u]
  {
    var init := s[..|s| - 1];
    if u == |s| - 1 {
      WhereNone(init, p);
    } else {
      WhereOnly(init, p, u);
    }
  }

  /** The index of the data source NewPlan keeps: the last one in the list. */
  function LastSource(units: seq<Unit>): (r: Option<nat>)
    ensures r.Some? ==> r.value < |units| && IsSource(units[r.value])
    ensures r.Some? ==> forall j :: r.value < j < |units| ==> !IsSource(units[j])
    ensures r.None? <==> forall j :: 0 <= j < |units| ==> !IsSource(units[j])
  {
    if units == [] then None
    else if IsSource(units[|units| - 1]) then Some(|units| - 1)
    else LastSource(units[..|units| - 1])
  }

  /** The GetPID() values of the units that have one, in list order. */
  function PIDs(units: seq<Unit>): (r: seq<string>)
    ensures var ix := Where(units, HasPID);
      |r| == |ix| && forall k :: 0 <= k < |r| ==> r[k] == units[ix[k]].pid.value
  {
    if units == [] then []
    else
      var last := units[|units| - 1];
      PIDs(units[..|units| - 1]) + (if HasPID(last) then [last.pid.value] else [])
  }

  /** Extending the scanned prefix by one unit extends each discovered value by that unit. */
  lemma DiscoverStep(units: seq<Unit>, i: nat)
    requires i < |units|
    ensures var pre, u := units[..i + 1], units[i];
      && (NoNil(pre) <==> NoNil(units[..i]) && u.Unit?)
      && Where(pre, IsRoot) == Where(units[..i], IsRoot) + (if IsRoot(u) then [i] else [])
      && LastSource(pre) == (if IsSource(u) then Some(i) else LastSource(units[..i]))
      && PIDs(pre) == PIDs(units[..i]) + (if HasPID(u) then [u.pid.value] else [])
  {
    assert units[..i + 1][..i] == units[..i];
  }
}
