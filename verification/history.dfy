/** Ownership over any sequence of applies by any owners, each atomic, with any calls failing. */
module History {
  import opened Kube
  import opened Server
  import opened Process
  import opened Ownership
  import opened Apply

  datatype Round = Round(cfg: Config, objs: ObjectMap, legs: seq<Leg>) {
    /** Selector mode: the owner has an identity to select by. */
    predicate Selects() {
      cfg.subContext != "" || cfg.owner.Some?
    }

    function Ctx(i: nat): Ctx
      requires i < |legs|
    {
      CtxFor(cfg, objs, legs[i].gvk, legs[i].objs)
    }
  }

  ghost predicate Happens(w: World, rounds: seq<Round>)
    decreases |rounds|, 0
  {
    rounds == [] ||
    (var init, r := rounds[..|rounds| - 1], rounds[|rounds| - 1];
     Happens(w, init) && r.Selects() && ApplyRun(r.cfg, r.objs, After(w, init), r.legs))
  }

  function After(w: World, rounds: seq<Round>): World
    requires Happens(w, rounds)
    decreases |rounds|, 1
  {
    if rounds == [] then w
    else
      var r := rounds[|rounds| - 1];
      ApplyAll(r.cfg, r.objs, After(w, rounds[..|rounds| - 1]), r.legs).0
  }

  /** One of the legs of the apply had the right to make this change. */
  ghost predicate LicensedIn(r: Round, e: Event) {
    exists i :: 0 <= i < |r.legs| && KnownScope(r.cfg, r.legs[i].gvk) && Licensed(r.Ctx(i), e)
  }

  ghost predicate LicensedSomewhere(rounds: seq<Round>, e: Event) {
    exists r :: r in rounds && LicensedIn(r, e)
  }

  ghost predicate LawfulIn(r: Round, w: World, w': World) {
    Grew(w, w') && forall i :: |w.log| <= i < |w'.log| ==> LicensedIn(r, w'.log[i])
  }

  lemma LawfulInTransitive(r: Round, a: World, b: World, d: World)
    requires LawfulIn(r, a, b) && LawfulIn(r, b, d)
    ensures LawfulIn(r, a, d)
  {
    GrewTransitive(a, b, d);
    forall i | |a.log| <= i < |d.log| ensures LicensedIn(r, d.log[i]) {
      if i < |b.log| {
        assert d.log[i] == d.log[..|b.log|][i] == b.log[i];
      }
    }
  }

  lemma LegIsLawfulIn(r: Round, w: World, i: nat)
    requires r.Selects() && i < |r.legs| && LegOk(r.cfg, r.objs, w, r.legs[i])
    ensures LawfulIn(r, w, LegOutcome(r.cfg, r.objs, w, r.legs[i]).0)
  {
    LegIsLawful(r, w, r.legs[i]);
    var w' := LegOutcome(r.cfg, r.objs, w, r.legs[i]).0;
    forall j | |w.log| <= j < |w'.log| ensures LicensedIn(r, w'.log[j]) {
      assert Licensed(r.Ctx(i), w'.log[j]);
    }
  }

  /** The first legs of an apply. */
  lemma {:induction false} LegsAreLawful(r: Round, w: World, legs: seq<Leg>)
    requires r.Selects() && legs <= r.legs && ApplyRun(r.cfg, r.objs, w, legs)
    ensures LawfulIn(r, w, ApplyAll(r.cfg, r.objs, w, legs).0)
    decreases |legs|
  {
    if legs == [] {
      GrewByNone(w, w);
    } else {
      var init, leg := legs[..|legs| - 1], legs[|legs| - 1];
      LegsAreLawful(r, w, init);
      LastLegIsLawful(r, w, legs);
      LawfulInTransitive(r, w, ApplyAll(r.cfg, r.objs, w, init).0, ApplyAll(r.cfg, r.objs, w, legs).0);
    }
  }

  lemma LastLegIsLawful(r: Round, w: World, legs: seq<Leg>)
    requires r.Selects() && legs <= r.legs && ApplyRun(r.cfg, r.objs, w, legs) && legs != []
    ensures ApplyRun(r.cfg, r.objs, w, legs[..|legs| - 1])
    ensures LawfulIn(r, ApplyAll(r.cfg, r.objs, w, legs[..|legs| - 1]).0, ApplyAll(r.cfg, r.objs, w, legs).0)
  {
    LegIsLawfulIn(r, ApplyAll(r.cfg, r.objs, w, legs[..|legs| - 1]).0, |legs| - 1);
  }

  lemma LegIsLawful(r: Round, w: World, leg: Leg)
    requires r.Selects() && LegOk(r.cfg, r.objs, w, leg)
    ensures Lawful(CtxFor(r.cfg, r.objs, leg.gvk, leg.objs), w, LegOutcome(r.cfg, r.objs, w, leg).0)
  {
    var c := CtxFor(r.cfg, r.objs, leg.gvk, leg.objs);
    if KnownScope(r.cfg, leg.gvk) {
      ProcessIsLawful(c, w, leg.plan);
    } else {
      LawfulByNone(c, w, w);
    }
  }

  /**
   * Over any sequence of applies, every patch, replacement and deletion on the log was made on an object with no hash,
   * with the hash of the apply that made it, or which the takeover rules gave that apply; and the log explains every
   * difference between the first world and the last.
   */
  lemma {:induction false} EveryChangeIsLicensed(w: World, rounds: seq<Round>)
    requires Happens(w, rounds)
    ensures var w' := After(w, rounds);
            Grew(w, w') && forall i :: |w.log| <= i < |w'.log| ==> LicensedSomewhere(rounds, w'.log[i])
    decreases |rounds|
  {
    if rounds == [] {
      GrewByNone(w, w);
    } else {
      var init, r := rounds[..|rounds| - 1], rounds[|rounds| - 1];
      EveryChangeIsLicensed(w, init);
      var w1, w2 := After(w, init), After(w, rounds);
      LegsAreLawful(r, w1, r.legs);
      GrewTransitive(w, w1, w2);
      forall i | |w.log| <= i < |w2.log| ensures LicensedSomewhere(rounds, w2.log[i]) {
        if i < |w1.log| {
          assert w2.log[i] == w2.log[..|w1.log|][i] == w1.log[i];
          var x :| x in init && LicensedIn(x, w1.log[i]);
          assert x in rounds;
        } else {
          assert r in rounds && LicensedIn(r, w2.log[i]);
        }
      }
    }
  }

  /** Each of the applies ran on some world. */
  lemma {:induction false} RoundRan(w: World, rounds: seq<Round>, r: Round) returns (before: World)
    requires Happens(w, rounds) && r in rounds
    ensures r.Selects() && ApplyRun(r.cfg, r.objs, before, r.legs)
    decreases |rounds|
  {
    var init, last := rounds[..|rounds| - 1], rounds[|rounds| - 1];
    if r == last {
      before := After(w, init);
    } else {
      assert r in init;
      before := RoundRan(w, init, r);
    }
  }

  /** None of the applies has any claim to this object: another hash is on it, and no takeover rule lets them have it. */
  ghost predicate Foreign(rounds: seq<Round>, s: Slot, live: Obj) {
    forall r, i ::
      r in rounds && 0 <= i < |r.legs| && KnownScope(r.cfg, r.legs[i].gvk) && r.Ctx(i).gvk.GroupKind() == s.gk ==>
        !MayTouch(r.Ctx(i), s.key, live)
  }

  lemma ForeignIsUntouched(rounds: seq<Round>, s: Slot, live: Obj, e: Event)
    requires Foreign(rounds, s, live) && LicensedSomewhere(rounds, e) && !e.Created? && e.slot == s
    ensures e.before != live
  {
    var r :| r in rounds && LicensedIn(r, e);
    var i :| 0 <= i < |r.legs| && KnownScope(r.cfg, r.legs[i].gvk) && Licensed(r.Ctx(i), e);
    assert MayTouch(r.Ctx(i), s.key, e.before);
  }

  /** An object held by an owner that is none of the appliers comes through any sequence of their applies unchanged. */
  lemma ForeignObjectSurvives(w: World, rounds: seq<Round>, s: Slot)
    requires Happens(w, rounds) && s in w.objs && Foreign(rounds, s, w.objs[s])
    ensures After(w, rounds).At(s) == Some(w.objs[s])
  {
    EveryChangeIsLicensed(w, rounds);
    var w' := After(w, rounds);
    var made := w'.log[|w.log|..];
    forall e | e in made && !e.Created? && e.slot == s ensures e.before != w.objs[s] {
      var j :| 0 <= j < |made| && made[j] == e;
      assert w'.log[|w.log| + j] == e;
      ForeignIsUntouched(rounds, s, w.objs[s], e);
    }
    UntouchedStays(w.objs, made, w'.objs, s);
  }
}
