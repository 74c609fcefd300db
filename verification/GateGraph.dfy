/** The gates of a configuration, and the check of their dependency graph that the scheduler starts with. */
module GateGraph {
  import opened Graphs

  datatype Gate = Gate(id: string, dependsOn: seq<string>, resources: seq<string>, readOnly: bool)

  predicate Unique(gates: seq<Gate>) {
    forall i, j :: 0 <= i < j < |gates| ==> gates[i].id != gates[j].id
  }

  /** The gates by id; of two gates with one id the last stays. */
  function ById(gates: seq<Gate>): map<string, Gate> {
    if gates == [] then map[] else ById(gates[..|gates| - 1])[gates[|gates| - 1].id := gates[|gates| - 1]]
  }

  function GateDeps(gates: seq<Gate>): (g: Graph)
    ensures g.Keys == ById(gates).Keys && forall id :: id in g ==> g[id] == ById(gates)[id].dependsOn
  {
    var byId := ById(gates);
    map id | id in byId :: byId[id].dependsOn
  }

  lemma {:induction false} ByIdHasGates(gates: seq<Gate>)
    ensures forall id :: id in ById(gates) <==> exists g :: g in gates && g.id == id
    ensures forall id :: id in ById(gates) ==> ById(gates)[id] in gates && ById(gates)[id].id == id
  {
    if gates != [] {
      ByIdHasGates(gates[..|gates| - 1]);
      assert gates == gates[..|gates| - 1] + [gates[|gates| - 1]];
    }
  }

  lemma UniqueById(gates: seq<Gate>)
    requires Unique(gates)
    ensures forall g :: g in gates ==> g.id in ById(gates) && ById(gates)[g.id] == g
  {
    ByIdHasGates(gates);
  }

  /** The search of `validateDag`, which stops at the first cycle or missing gate. */
  class Search {
    const byId: Graph
    var visiting: set<string>
    var done: set<string>
    ghost var finish: map<string, nat>
    ghost var stamp: nat

    constructor (gates: seq<Gate>)
      ensures byId == GateDeps(gates) && Valid() && visiting == {} && done == {}
    {
      byId := GateDeps(gates);
      visiting, done := {}, {};
      finish, stamp := map[], 0;
    }

    ghost predicate Valid()
      reads this
    {
      && visiting <= byId.Keys && visiting !! done
      && done <= byId.Keys && finish.Keys == done && (forall x :: x in done ==> finish[x] < stamp)
      && forall x, y :: x in done && y in byId[x] ==> y in done && finish[y] < finish[x]
    }

    /** False where the source throws: then the graph has a cycle or a missing gate. */
    method Visit(id: string) returns (ok: bool)
      requires Valid() && (id in byId || exists from :: Edge(byId, from, id))
      requires forall v :: v in visiting ==> Reaches(byId, v, id)
      modifies this
      ensures ok ==> Valid() && visiting == old(visiting) && old(done) <= done && id in done
      ensures !ok ==> !Closed(byId) || !Acyclic(byId)
      decreases byId.Keys - visiting
    {
      if id in done {
        return true;
      }
      if id in visiting || id !in byId {
        return false;
      }
      visiting := visiting + {id};
      for i := 0 to |byId[id]|
        invariant Valid() && visiting == old(visiting) + {id} && old(done) <= done
        invariant forall j :: 0 <= j < i ==> byId[id][j] in done
      {
        var dep := byId[id][i];
        EdgeReaches(byId, id, dep);
        forall v | v in old(visiting) ensures Reaches(byId, v, dep) {
          ReachesFurther(byId, v, id, dep);
        }
        assert Edge(byId, id, dep);
        ok := Visit(dep);
        if !ok {
          return;
        }
      }
      visiting := visiting - {id};
      finish, stamp := finish[id := stamp], stamp + 1;
      done := done + {id};
      ok := true;
    }
  }

  /** The search over all gates: it passes exactly on a closed acyclic graph. */
  method SearchAll(gates: seq<Gate>) returns (ok: bool)
    ensures ok <==> Closed(GateDeps(gates)) && Acyclic(GateDeps(gates))
    ensures ok ==> exists rank :: Ranked(GateDeps(gates), rank)
  {
    ByIdHasGates(gates);
    var search := new Search(gates);
    for i := 0 to |gates|
      invariant search.Valid() && search.visiting == {}
      invariant forall j :: 0 <= j < i ==> gates[j].id in search.done
    {
      assert gates[i] in gates;
      ok := search.Visit(gates[i].id);
      if !ok {
        return;
      }
    }
    assert forall x :: x in search.byId ==> x in search.done;
    assert Ranked(search.byId, search.finish);
    RankedIsAcyclic(search.byId, search.finish);
    ok := true;
  }

  /** Accepts exactly the gate lists whose ids are unique and whose graph is closed and acyclic. */
  method ValidateDag(gates: seq<Gate>) returns (ok: bool)
    ensures ok <==> Unique(gates) && Closed(GateDeps(gates)) && Acyclic(GateDeps(gates))
    ensures ok ==> exists rank :: Ranked(GateDeps(gates), rank)
  {
    UniqueBySize(gates);
    if |ById(gates)| != |gates| {
      return false;
    }
    ok := SearchAll(gates);
  }

  lemma UniqueSnoc(gates: seq<Gate>)
    requires gates != []
    ensures var init := gates[..|gates| - 1];
            Unique(gates) <==> Unique(init) && gates[|gates| - 1].id !in ById(init)
  {
    var init, last := gates[..|gates| - 1], gates[|gates| - 1];
    ByIdHasGates(init);
    if last.id in ById(init) {
      var i :| 0 <= i < |init| && init[i].id == last.id;
      assert gates[i].id == last.id;
    } else {
      assert forall i :: 0 <= i < |init| ==> init[i] in init && gates[i] == init[i];
    }
  }

  lemma {:induction false} UniqueBySize(gates: seq<Gate>)
    ensures |ById(gates)| <= |gates|
    ensures |ById(gates)| == |gates| <==> Unique(gates)
  {
    if gates != [] {
      var m, last := ById(gates[..|gates| - 1]), gates[|gates| - 1];
      UniqueBySize(gates[..|gates| - 1]);
      UniqueSnoc(gates);
      assert m[last.id := last].Keys == m.Keys + {last.id};
      if last.id in m {
        assert m.Keys + {last.id} == m.Keys;
      }
    }
  }
}
