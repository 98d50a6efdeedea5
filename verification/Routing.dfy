/** From a command's logical names to the paths of the crossbar. */
module Routing {
  import opened ContextWords
  import Controller
  import Distributor

  function KindOf(op: bv64): Distributor.Kind {
    if op == Wide(CONFIG_LOAD) then Distributor.LoadKind else if op == Wide(CONFIG_STORE) then Distributor.StoreKind
      else Distributor.ArithKind
  }

  function Value(x: bv64): nat { x as nat }

  /** The part of a unit's context that the crossbar looks at. */
  function RouteOf(context: bv64): Distributor.Route {
    Distributor.Route(Value(Phid(context)), KindOf(UnitOp(context)), Value(UnitMuxA(context)), Value(UnitMuxB(context)))
  }

  lemma NumberIsIndex(i: nat)
    requires i < Controller.UNITS
    ensures Value(Controller.UnitNumber(i)) == i
  {
  }

  lemma KindFollowsCommand(i: nat, w: bv32, e: bv32)
    requires i < Controller.UNITS && Controller.UnitKind(i) == Wide(Op(w))
    ensures var c := Decoded(w, e);
      KindOf(Controller.UnitKind(i)) ==
        if c.Load? then Distributor.LoadKind else if c.Store? then Distributor.StoreKind else Distributor.ArithKind
    ensures KindOf(Controller.UnitKind(i)) ==
        if i < 4 then Distributor.LoadKind else if i < 12 then Distributor.ArithKind else Distributor.StoreKind
  {
  }

  /** When a unit is assigned a command, its context makes the crossbar feed it from
      the units that were last given the names the command uses: its kind decides which
      inputs count, its slot which ports they arrive at. */
  lemma NamesBecomePaths(s: Controller.State, i: nat)
    requires Controller.Inv(s) && i < Controller.UNITS && Controller.Suits(s.slots, Op(s.flc), i)
    ensures
      var t := Controller.Assign(s, i);
      var r := RouteOf(t.slots[i]);
      var c := Decoded(s.flc, s.ext);
      && r.phid == i
      && (c.Store? <==> r.kind.StoreKind?) && (c.Arith? <==> r.kind.ArithKind?)
      && (!c.Load? ==> r.muxA == Controller.LastFor(t.trace, Controller.Name(c.muxA)))
      && (c.Arith? ==> r.muxB == Controller.LastFor(t.trace, Controller.Name(c.muxB)))
  {
    hide Value, Phid, UnitOp, UnitMuxA, UnitMuxB, Busy, Wide, Op, MuxA, MuxB, Lgid, KindOf;
    hide Controller.Name, Controller.UnitNumber, Controller.UnitKind, Controller.LifeOf, Controller.LastFor, Allocated;
    hide Controller.TableOk, Controller.PhaseOk;
    hide UnitOpAux, UnitBatchLen, UnitAddr, UnitAddrInc;
    var t := Controller.Assign(s, i);
    Controller.AssignKeeps(s, i);
    Controller.InputsAreTheLastNamed(s, i);
    assert Controller.SlotOk(t.slots[i], t.pending, t.trace, i);
    assert Controller.SlotOk(s.slots[i], s.pending, s.trace, i);
    NumberIsIndex(i);
    NumberIsIndex(Controller.LastFor(t.trace, Controller.Name(MuxA(s.flc))));
    NumberIsIndex(Controller.LastFor(t.trace, Controller.Name(MuxB(s.flc))));
    KindFollowsCommand(i, s.flc, s.ext);
  }
}
