/** A run of decorator applications, as happens when the modules declaring
    persistent callbacks are imported: `component(tag)` and `modal(tag)` are
    applied in source order, the two classes interleaved, each one a `Register`
    on the state the previous ones left. */
module Startup {
  import opened Registry

  /** One decorator application: `component(tag)(handler)` when `cls` is
      `ComponentEvent`, `modal(tag)(handler)` when it is `ModalEvent`. */
  datatype Registration<F> = Registration(cls: EventClass, tag: string, handler: Handler<F>)

  /** The tags a run registers in class `cls`. */
  function Tags<F>(rs: seq<Registration<F>>, cls: EventClass): set<string>
  {
    set i | 0 <= i < |rs| && rs[i].cls == cls :: rs[i].tag
  }

  /** The registrations of class `cls` in a run, in their order. */
  function OfClass<F>(rs: seq<Registration<F>>, cls: EventClass): (sub: seq<Registration<F>>)
    ensures forall i :: 0 <= i < |sub| ==> sub[i].cls == cls
  {
    if |rs| == 0 then []
    else
      var last := rs[|rs| - 1];
      OfClass(rs[..|rs| - 1], cls) + (if last.cls == cls then [last] else [])
  }

  /** Splitting a run by class loses and duplicates no registration: since each
      part holds only registrations of its class, the part of a class holds
      exactly the run's registrations of that class, as often as the run does. */
  lemma {:induction false} OfClassPartitions<F>(rs: seq<Registration<F>>)
    ensures multiset(OfClass(rs, ComponentEvent)) + multiset(OfClass(rs, ModalEvent)) == multiset(rs)
    decreases |rs|
  {
    if |rs| > 0 {
      var init := rs[..|rs| - 1];
      var last := rs[|rs| - 1];
      var cs, ms := multiset(OfClass(init, ComponentEvent)), multiset(OfClass(init, ModalEvent));
      var cs', ms' := multiset(OfClass(rs, ComponentEvent)), multiset(OfClass(rs, ModalEvent));
      assert cs + ms == multiset(init) by { OfClassPartitions(init); }
      assert multiset(rs) == multiset(init) + multiset{last} by { assert rs == init + [last]; }
      assert cs' == cs + (if last.cls == ComponentEvent then multiset{last} else multiset{}) by {
        OfClassLastStep(rs, ComponentEvent);
      }
      assert ms' == ms + (if last.cls == ModalEvent then multiset{last} else multiset{}) by {
        OfClassLastStep(rs, ModalEvent);
      }
      AddToOnePart(cs, ms, multiset(init), last, last.cls == ComponentEvent);
    }
  }

  /** Adding an element to exactly one of two parts adds it to their sum. */
  lemma AddToOnePart<T>(a: multiset<T>, b: multiset<T>, whole: multiset<T>, x: T, toFirst: bool)
    requires a + b == whole
    ensures (a + (if toFirst then multiset{x} else multiset{})) + (b + (if toFirst then multiset{} else multiset{x}))
         == whole + multiset{x}
  {
  }

  /** What the last registration of a non-empty run adds to the run's part of class `cls`. */
  lemma OfClassLastStep<F>(rs: seq<Registration<F>>, cls: EventClass)
    requires |rs| > 0
    ensures multiset(OfClass(rs, cls))
         == multiset(OfClass(rs[..|rs| - 1], cls)) + (if rs[|rs| - 1].cls == cls then multiset{rs[|rs| - 1]} else multiset{})
  {
  }

  /** The state after applying the registrations of `rs`, in order, to `p`. No
      registration removes a tag. */
  function RegisterAll<F>(p: Persistence<F>, rs: seq<Registration<F>>): (r: Persistence<F>)
    ensures forall cls: EventClass :: Table(p, cls).Keys <= Table(r, cls).Keys
    decreases |rs|
  {
    if |rs| == 0 then p
    else
      var last := rs[|rs| - 1];
      Register(RegisterAll(p, rs[..|rs| - 1]), last.cls, last.tag, last.handler).0
  }

  /** After a run, the keys of each class's table are its earlier keys plus exactly
      the tags the run registers in that class. */
  lemma {:induction false} RegisterAllKeys<F>(p: Persistence<F>, rs: seq<Registration<F>>, cls: EventClass)
    ensures Table(RegisterAll(p, rs), cls).Keys == Table(p, cls).Keys + Tags(rs, cls)
    decreases |rs|
  {
    if |rs| > 0 {
      var init := rs[..|rs| - 1];
      var last := rs[|rs| - 1];
      RegisterAllKeys(p, init, cls);
      assert Tags(rs, cls) == Tags(init, cls) + (if last.cls == cls then {last.tag} else {}) by {
        assert forall i :: 0 <= i < |init| ==> init[i] == rs[i];
      }
    }
  }

  /** The handler of the last registration of a tag in a class is the one that
      class's table keeps, however many earlier registrations of it there were. */
  lemma {:induction false} LastRegistrationWins<F>(p: Persistence<F>, rs: seq<Registration<F>>, i: nat)
    requires i < |rs|
    requires forall j :: i < j < |rs| ==> rs[j].cls != rs[i].cls || rs[j].tag != rs[i].tag
    ensures rs[i].tag in Table(RegisterAll(p, rs), rs[i].cls)
    ensures Table(RegisterAll(p, rs), rs[i].cls)[rs[i].tag] == rs[i].handler
    decreases |rs|
  {
    if i < |rs| - 1 {
      var init := rs[..|rs| - 1];
      assert init[i] == rs[i];
      LastRegistrationWins(p, init, i);
    }
  }

  /** A tag no registration of class `cls` in the run mentions keeps, in that
      class's table, whatever it had before. */
  lemma {:induction false} UnmentionedTagKept<F>(p: Persistence<F>, cls: EventClass,
                                                  rs: seq<Registration<F>>, tag: string)
    requires forall j :: 0 <= j < |rs| ==> rs[j].cls != cls || rs[j].tag != tag
    ensures tag in Table(RegisterAll(p, rs), cls) <==> tag in Table(p, cls)
    ensures tag in Table(p, cls) ==> Table(RegisterAll(p, rs), cls)[tag] == Table(p, cls)[tag]
    decreases |rs|
  {
    if |rs| > 0 {
      UnmentionedTagKept(p, cls, rs[..|rs| - 1], tag);
    }
  }

  /** The table of `cls` after a run depends only on the table of `cls` it started
      from. */
  lemma {:induction false} RunDependsOnlyOnOwnTable<F>(p: Persistence<F>, q: Persistence<F>,
                                                       cls: EventClass, rs: seq<Registration<F>>)
    requires Table(p, cls) == Table(q, cls)
    ensures Table(RegisterAll(p, rs), cls) == Table(RegisterAll(q, rs), cls)
    decreases |rs|
  {
    if |rs| > 0 {
      RunDependsOnlyOnOwnTable(p, q, cls, rs[..|rs| - 1]);
    }
  }

  /** In a mixed run, the table of each class comes from that class's registrations
      alone: the registrations of the other class are invisible to it. */
  lemma {:induction false} RunSeparatesClasses<F>(p: Persistence<F>, cls: EventClass, rs: seq<Registration<F>>)
    ensures Table(RegisterAll(p, rs), cls) == Table(RegisterAll(p, OfClass(rs, cls)), cls)
    decreases |rs|
  {
    if |rs| > 0 {
      var init := rs[..|rs| - 1];
      var last := rs[|rs| - 1];
      var own := OfClass(init, cls);
      RunSeparatesClasses(p, cls, init);
      if last.cls == cls {
        assert OfClass(rs, cls) == own + [last];
        assert (own + [last])[..|own|] == own;
        RegisterSameTableAgrees(RegisterAll(p, init), RegisterAll(p, own), cls, last.tag, last.handler);
      } else {
        assert OfClass(rs, cls) == own;
      }
    }
  }

  /** Registering in `cls` on two states that agree on the table of `cls` keeps them
      agreeing on it. */
  lemma RegisterSameTableAgrees<F>(p: Persistence<F>, q: Persistence<F>, cls: EventClass,
                                   tag: string, h: Handler<F>)
    requires Table(p, cls) == Table(q, cls)
    ensures Table(Register(p, cls, tag, h).0, cls) == Table(Register(q, cls, tag, h).0, cls)
  {
  }

  /** How the decorators of the two classes interleave at startup does not matter:
      two runs with the same component registrations in the same order and the same
      modal registrations in the same order build the same extension state. */
  lemma StartupInterleavingIrrelevant<F>(rs1: seq<Registration<F>>, rs2: seq<Registration<F>>)
    requires OfClass(rs1, ComponentEvent) == OfClass(rs2, ComponentEvent)
    requires OfClass(rs1, ModalEvent) == OfClass(rs2, ModalEvent)
    ensures RegisterAll(Init(), rs1) == RegisterAll(Init(), rs2)
  {
    RunSeparatesClasses(Init(), ComponentEvent, rs1);
    RunSeparatesClasses(Init(), ComponentEvent, rs2);
    RunSeparatesClasses(Init(), ModalEvent, rs1);
    RunSeparatesClasses(Init(), ModalEvent, rs2);
    var a := RegisterAll(Init(), rs1);
    var b := RegisterAll(Init(), rs2);
    assert a.componentCallbacks == Table(a, ComponentEvent) == Table(b, ComponentEvent) == b.componentCallbacks;
    assert a.modalCallbacks == Table(a, ModalEvent) == Table(b, ModalEvent) == b.modalCallbacks;
  }
}
