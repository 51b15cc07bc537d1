/** The sink's bounded window of event ids (`SeenIds`).  The window is specified by its history: `missed` is
    the sequence of all ids recorded since the process started, and the window is its last `cap` elements. */
module SeenWindow {

  import opened Sequences

  /** A duplicate is a non-empty id among the last `cap` recorded ones; the empty id is never a duplicate. */
  predicate IsDuplicate(missed: seq<string>, cap: nat, id: string) {
    id != "" && id in Suffix(missed, cap)
  }

  /** The history after looking up `id`: the empty id is never recorded, nor is a duplicate. */
  function Record(missed: seq<string>, cap: nat, id: string): seq<string> {
    if id == "" || IsDuplicate(missed, cap, id) then missed else missed + [id]
  }

  /** The history after looking up the ids of `trace` in order, in a process that starts with an empty window. */
  function History(trace: seq<string>, cap: nat): seq<string> {
    if trace == [] then []
    else Record(History(trace[..|trace| - 1], cap), cap, trace[|trace| - 1])
  }

  /** Whatever was looked up, the ids in the window are non-empty and pairwise different. */
  lemma {:induction false} WindowIsDistinct(trace: seq<string>, cap: nat)
    requires cap >= 1
    ensures Distinct(Suffix(History(trace, cap), cap)) && "" !in History(trace, cap)
  {
    if trace != [] {
      WindowIsDistinct(trace[..|trace| - 1], cap);
      var h, id := History(trace[..|trace| - 1], cap), trace[|trace| - 1];
      if h != History(trace, cap) {
        PushStaysDistinct(h, cap, id);
      }
    }
  }

  lemma {:induction false} HistoryGrows(trace: seq<string>, cap: nat, k: nat)
    requires k <= |trace|
    ensures History(trace[..k], cap) <= History(trace, cap)
  {
    if k == |trace| {
      assert trace[..k] == trace;
    } else {
      var front := trace[..|trace| - 1];
      HistoryGrows(front, cap, k);
      assert front[..k] == trace[..k];
    }
  }

  /** Duplicate suppression: if the same non-empty id is let through twice by one process, then `cap` other,
      pairwise different ids were let through in between. */
  lemma PassedTwiceMeansWindowTurnedOver(trace: seq<string>, cap: nat, i: nat, j: nat)
    requires cap >= 1
    requires i < j < |trace|
    requires trace[i] == trace[j] != ""
    requires !IsDuplicate(History(trace[..i], cap), cap, trace[i])
    requires !IsDuplicate(History(trace[..j], cap), cap, trace[j])
    ensures var before, after := History(trace[..i + 1], cap), History(trace[..j], cap);
            && before <= after
            && |after| >= |before| + cap
            && Distinct(Suffix(after, cap))
            && trace[i] !in Suffix(after, cap)
  {
    var before, after := History(trace[..i + 1], cap), History(trace[..j], cap);
    assert trace[..i + 1][..i] == trace[..i];
    assert trace[..j][..i + 1] == trace[..i + 1];
    HistoryGrows(trace[..j], cap, i + 1);
    WindowIsDistinct(trace[..j], cap);
    assert before[|before| - 1] == trace[i] == after[|before| - 1];
    var window := Suffix(after, cap);
    assert forall k :: 0 <= k < |window| ==> after[|after| - |window| + k] == window[k] != trace[i];
    assert |before| - 1 < |after| - |window|;
  }

  lemma IdsOfTail<T(!new)>(order: seq<T>)
    requires order != [] && Distinct(order)
    ensures Distinct(order[1..])
    ensures (set id | id in order) - {order[0]} == (set id | id in order[1..])
  {
    assert order == [order[0]] + order[1..];
  }

  lemma IdsOfPush<T(!new)>(order: seq<T>, id: T)
    requires id !in order && Distinct(order)
    ensures Distinct(order + [id])
    ensures (set x | x in order + [id]) == (set x | x in order) + {id}
  {
  }

  class SeenIds {
    var ids: set<string>
    var order: seq<string>
    const cap: nat
    ghost var missed: seq<string>

    ghost predicate Valid()
      reads this
    {
      && cap >= 1
      && order == Suffix(missed, cap)
      && Distinct(order)
      && ids == (set id | id in order)
      && "" !in missed
    }

    constructor (capacity: nat)
      ensures Valid() && missed == []
      ensures cap == if capacity == 0 then 1 else capacity
    {
      ids, order, missed := {}, [], [];
      cap := if capacity == 0 then 1 else capacity;
    }

    method CheckAndInsert(id: string) returns (duplicate: bool)
      requires Valid()
      modifies this
      ensures Valid()
      ensures duplicate <==> IsDuplicate(old(missed), cap, id)
      ensures missed == Record(old(missed), cap, id)
    {
      if id == "" {
        return false;
      }
      if id in ids {
        return true;
      }
      SuffixPush(missed, cap, id);
      if |order| >= cap {
        IdsOfTail(order);
        ids := ids - {order[0]};
        order := order[1..];
      }
      IdsOfPush(order, id);
      ids := ids + {id};
      order := order + [id];
      missed := missed + [id];
      return false;
    }
  }
}
