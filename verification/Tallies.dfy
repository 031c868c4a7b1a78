/**
 Counting by group, and lists kept in the order of their names.
 */
module Tallies {
  import opened LeaseModel
  import opened LeaseInvariants

  /** One counted thing: the group it belongs to (a job or a worker) and its task state. */
  datatype Entry = Entry(group: string, state: TaskState)

  function CountAll(entries: seq<Entry>, state: TaskState): nat {
    if entries == [] then 0
    else CountAll(entries[..|entries| - 1], state) + if entries[|entries| - 1].state == state then 1 else 0
  }

  function CountGroup(entries: seq<Entry>, group: string, state: TaskState): nat {
    if entries == [] then 0
    else
      CountGroup(entries[..|entries| - 1], group, state)
      + if entries[|entries| - 1] == Entry(group, state) then 1 else 0
  }

  function SumGroups(groups: seq<string>, entries: seq<Entry>, state: TaskState): nat {
    if groups == [] then 0 else CountGroup(entries, groups[0], state) + SumGroups(groups[1..], entries, state)
  }

  lemma CountOneMore(entries: seq<Entry>, e: Entry)
    ensures forall st :: CountAll(entries + [e], st) == CountAll(entries, st) + if e.state == st then 1 else 0
    ensures forall g, st :: CountGroup(entries + [e], g, st) == CountGroup(entries, g, st) + if e == Entry(g, st) then 1 else 0
  {
    assert (entries + [e])[..|entries|] == entries;
  }

  lemma {:induction false} SumOneMore(groups: seq<string>, entries: seq<Entry>, e: Entry, state: TaskState)
    requires NoDuplicates(groups)
    ensures SumGroups(groups, entries + [e], state)
         == SumGroups(groups, entries, state) + if e.state == state && e.group in groups then 1 else 0
  {
    if groups == [] {
    } else {
      CountOneMore(entries, e);
      SumOneMore(groups[1..], entries, e, state);
    }
  }

  lemma {:induction false} SumOfNothing(groups: seq<string>, state: TaskState)
    ensures SumGroups(groups, [], state) == 0
  {
    if groups == [] {
    } else {
      SumOfNothing(groups[1..], state);
    }
  }

  /** If the groups cover everything in a state, their counts add up to the whole. */
  lemma {:induction false} GroupsSumUp(groups: seq<string>, entries: seq<Entry>, state: TaskState)
    requires NoDuplicates(groups)
    requires forall i :: 0 <= i < |entries| && entries[i].state == state ==> entries[i].group in groups
    ensures SumGroups(groups, entries, state) == CountAll(entries, state)
    decreases |entries|
  {
    if entries == [] {
      SumOfNothing(groups, state);
    } else {
      var init, last := entries[..|entries| - 1], entries[|entries| - 1];
      assert entries == init + [last];
      GroupsSumUp(groups, init, state);
      SumOneMore(groups, init, last, state);
    }
  }

  // ---- Go's string order ----

  predicate Before(a: string, b: string) {
    b != "" && (a == "" || a[0] < b[0] || (a[0] == b[0] && Before(a[1..], b[1..])))
  }

  lemma {:induction false} BeforeIsTotal(a: string, b: string)
    ensures a == b || Before(a, b) || Before(b, a)
  {
    if a == "" || b == "" || a[0] != b[0] {
    } else {
      BeforeIsTotal(a[1..], b[1..]);
      assert a == [a[0]] + a[1..] && b == [b[0]] + b[1..];
    }
  }

  lemma {:induction false} BeforeIsTransitive(a: string, b: string, c: string)
    requires Before(a, b) && Before(b, c)
    ensures Before(a, c)
  {
    if a == "" || a[0] != b[0] || b[0] != c[0] {
    } else {
      BeforeIsTransitive(a[1..], b[1..], c[1..]);
    }
  }

  lemma {:induction false} BeforeIsStrict(a: string)
    ensures !Before(a, a)
  {
    if a == "" {
    } else {
      BeforeIsStrict(a[1..]);
    }
  }

  predicate StrictlySorted(names: seq<string>) {
    forall i, j :: 0 <= i < j < |names| ==> Before(names[i], names[j])
  }

  lemma SortedHasNoDuplicates(names: seq<string>)
    requires StrictlySorted(names)
    ensures NoDuplicates(names)
  {
    forall i, j | 0 <= i < j < |names|
      ensures names[i] != names[j]
    {
      BeforeIsStrict(names[i]);
    }
  }

  /** The names of a set in ascending order. */
  method SortedNames(names: set<string>) returns (sorted: seq<string>)
    ensures StrictlySorted(sorted)
    ensures forall x :: x in sorted <==> x in names
  {
    sorted := [];
    var rest := names;
    while rest != {}
      invariant rest <= names && StrictlySorted(sorted)
      invariant forall x :: x in sorted <==> x in names && x !in rest
      decreases rest
    {
      var name :| name in rest;
      rest := rest - {name};
      sorted := Insert(sorted, name);
    }
  }

  method Insert(sorted: seq<string>, name: string) returns (result: seq<string>)
    requires StrictlySorted(sorted) && name !in sorted
    ensures StrictlySorted(result)
    ensures forall x :: x in result <==> x in sorted || x == name
  {
    var i := 0;
    while i < |sorted| && Before(sorted[i], name)
      invariant 0 <= i <= |sorted|
      invariant forall k :: 0 <= k < i ==> Before(sorted[k], name)
    {
      i := i + 1;
    }
    forall k | i <= k < |sorted|
      ensures Before(name, sorted[k])
    {
      BeforeIsTotal(name, sorted[i]);
      if i < k {
        BeforeIsTransitive(name, sorted[i], sorted[k]);
      }
    }
    result := sorted[..i] + [name] + sorted[i..];
    assert forall x :: x in sorted <==> x in sorted[..i] || x in sorted[i..];
  }
}
