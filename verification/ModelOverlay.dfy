/** The model list of a provider: a static baseline overlaid with its dynamic models. */
module ModelOverlay {
  import opened Wrappers

  datatype Model = Model(id: nat, details: nat)

  /** The first model with the id, as a lookup by id finds it. */
  function Find(models: seq<Model>, id: nat): Option<Model> {
    if models == [] then None
    else if models[0].id == id then Some(models[0])
    else Find(models[1..], id)
  }

  /** The last model with the id. */
  function FindLast(models: seq<Model>, id: nat): Option<Model> {
    if models == [] then None
    else if models[|models|-1].id == id then Some(models[|models|-1])
    else FindLast(models[..|models|-1], id)
  }

  lemma {:induction false} FindAt(models: seq<Model>, k: nat, id: nat)
    requires k < |models| && models[k].id == id && forall j :: 0 <= j < k ==> models[j].id != id
    ensures Find(models, id) == Some(models[k])
  {
    if k > 0 {
      FindAt(models[1..], k - 1, id);
    }
  }

  method FindIndex(models: seq<Model>, id: nat) returns (index: int)
    ensures -1 <= index < |models|
    ensures index >= 0 ==> models[index].id == id
    ensures forall j :: 0 <= j < (if index >= 0 then index else |models|) ==> models[j].id != id
  {
    index := 0;
    while index < |models|
      invariant 0 <= index <= |models|
      invariant forall j :: 0 <= j < index ==> models[j].id != id
    {
      if models[index].id == id { return; }
      index := index + 1;
    }
    index := -1;
  }

  /** Replacing or appending one model changes the lookup of its id and of no other. */
  lemma {:induction false} FindAfterPut(models: seq<Model>, index: int, model: Model, id: nat)
    requires -1 <= index < |models|
    requires index >= 0 ==> models[index].id == model.id
    requires forall j :: 0 <= j < (if index >= 0 then index else |models|) ==> models[j].id != model.id
    ensures var put := if index >= 0 then models[index := model] else models + [model];
            Find(put, id) == if id == model.id then Some(model) else Find(models, id)
  {
    var put := if index >= 0 then models[index := model] else models + [model];
    if id == model.id {
      FindAt(put, if index >= 0 then index else |models|, id);
    } else if models != [] {
      if models[0].id != id && index != 0 {
        FindAfterPut(models[1..], if index > 0 then index - 1 else -1, model, id);
        assert put[1..] == if index > 0 then models[1..][index - 1 := model] else models[1..] + [model];
      } else if index == 0 {
        assert put[1..] == models[1..];
      }
    } else {
      assert put[1..] == [];
    }
  }

  lemma {:induction false} FindNothing(models: seq<Model>, id: nat)
    requires forall k :: 0 <= k < |models| ==> models[k].id != id
    ensures Find(models, id) == None
  {
    if models != [] {
      FindNothing(models[1..], id);
    }
  }

  /** The last lookup fails only when no model has the id. */
  lemma {:induction false} FindLastFails(models: seq<Model>, id: nat)
    requires FindLast(models, id) == None
    ensures forall k :: 0 <= k < |models| ==> models[k].id != id
  {
    if models != [] {
      FindLastFails(models[..|models|-1], id);
      assert forall k :: 0 <= k < |models| - 1 ==> models[k] == models[..|models|-1][k];
    }
  }

  /** These are the ids of the dynamic models at these positions, which increase and are below n. */
  ghost predicate AreFirst(more: seq<Model>, dynamic: seq<Model>, added: seq<nat>, n: nat) {
    && |more| == |added| && n <= |dynamic|
    && (forall i, j :: 0 <= i < j < |added| ==> added[i] < added[j])
    && (forall i :: 0 <= i < |added| ==> added[i] < n && more[i].id == dynamic[added[i]].id)
    && forall i, k :: 0 <= i < |added| && 0 <= k < added[i] ==> dynamic[k].id != more[i].id
  }

  lemma KeepsFirst(merged: seq<Model>, start: nat, dynamic: seq<Model>, added: seq<nat>, n: nat, index: nat)
    requires start <= |merged| && n < |dynamic| && index < |merged| && merged[index].id == dynamic[n].id
    requires AreFirst(merged[start..], dynamic, added, n)
    ensures AreFirst(merged[index := dynamic[n]][start..], dynamic, added, n + 1)
  {
    var more, put := merged[start..], merged[index := dynamic[n]][start..];
    assert forall i :: 0 <= i < |more| ==> put[i].id == more[i].id;
  }

  lemma AddsFirst(merged: seq<Model>, start: nat, dynamic: seq<Model>, added: seq<nat>, n: nat)
    requires start <= |merged| && n < |dynamic| && AreFirst(merged[start..], dynamic, added, n)
    requires forall k :: 0 <= k < n ==> dynamic[k].id != dynamic[n].id
    ensures AreFirst((merged + [dynamic[n]])[start..], dynamic, added + [n], n + 1)
  {
    assert (merged + [dynamic[n]])[start..] == merged[start..] + [dynamic[n]];
  }

  /** An id that is not in the merged models was not among the dynamic ones so far. */
  lemma IsNew(baseline: seq<Model>, merged: seq<Model>, dynamic: seq<Model>, n: nat)
    requires n < |dynamic| && forall j :: 0 <= j < |merged| ==> merged[j].id != dynamic[n].id
    requires var id := dynamic[n].id;
             Find(merged, id) == if FindLast(dynamic[..n], id).Some? then FindLast(dynamic[..n], id) else Find(baseline, id)
    ensures forall k :: 0 <= k < n ==> dynamic[k].id != dynamic[n].id
  {
    FindNothing(merged, dynamic[n].id);
    FindLastFails(dynamic[..n], dynamic[n].id);
    assert forall k :: 0 <= k < n ==> dynamic[k] == dynamic[..n][k];
  }

  /**
    A lookup after the merge finds the last dynamic model with the id, else the baseline
    one; the baseline keeps its places; only ids that the baseline lacks are appended, once
    each, in the order in which they first occur.
  */
  method CurrentModels(baseline: seq<Model>, dynamic: seq<Model>) returns (merged: seq<Model>, ghost added: seq<nat>)
    ensures |merged| == |baseline| + |added| && AreFirst(merged[|baseline|..], dynamic, added, |dynamic|)
    ensures forall id :: Find(merged, id) ==
              if FindLast(dynamic, id).Some? then FindLast(dynamic, id) else Find(baseline, id)
    ensures |merged| >= |baseline|
    ensures forall k :: 0 <= k < |baseline| ==> merged[k].id == baseline[k].id
    ensures forall j, k :: 0 <= j < k && |baseline| <= k < |merged| ==> merged[j].id != merged[k].id
  {
    merged, added := baseline, [];
    var n := 0;
    while n < |dynamic|
      invariant 0 <= n <= |dynamic|
      invariant |merged| == |baseline| + |added| && AreFirst(merged[|baseline|..], dynamic, added, n)
      invariant forall id :: Find(merged, id) ==
                  if FindLast(dynamic[..n], id).Some? then FindLast(dynamic[..n], id) else Find(baseline, id)
      invariant |merged| >= |baseline|
      invariant forall k :: 0 <= k < |baseline| ==> merged[k].id == baseline[k].id
      invariant forall j, k :: 0 <= j < k && |baseline| <= k < |merged| ==> merged[j].id != merged[k].id
    {
      var model := dynamic[n];
      var index := FindIndex(merged, model.id);
      assert dynamic[..n + 1][..n] == dynamic[..n];
      ghost var before := merged;
      if index >= 0 {
        KeepsFirst(merged, |baseline|, dynamic, added, n, index);
        merged := merged[index := model];
      } else {
        IsNew(baseline, merged, dynamic, n);
        AddsFirst(merged, |baseline|, dynamic, added, n);
        merged, added := merged + [model], added + [n];
      }
      forall id
        ensures Find(merged, id) == if id == model.id then Some(model) else Find(before, id)
      {
        FindAfterPut(before, index, model, id);
      }
      n := n + 1;
    }
    assert dynamic[..n] == dynamic;
  }
}
