/** The two callback tables of the persistence extension and the decorators that fill them. */
module Registry {

  /** The two kinds of inbound interaction. Each has its own tag namespace. */
  datatype EventClass = ComponentEvent | ModalEvent {
    /** The class whose table an operation on this class must leave alone. */
    function Other(): (o: EventClass)
      ensures o != this
    {
      if ComponentEvent? then ModalEvent else ComponentEvent
    }
  }

  /** Whatever the decorator was applied to. Python lets `None` be registered,
      and the two listeners react to it differently. */
  datatype Handler<F> = PyNone | Callable(fn: F)

  /** The extension's state: one tag-to-callback table per event class. */
  datatype Persistence<F> = Persistence(
    componentCallbacks: map<string, Handler<F>>,
    modalCallbacks: map<string, Handler<F>>)

  /** The table that serves events of class `cls`. */
  function Table<F>(p: Persistence<F>, cls: EventClass): map<string, Handler<F>>
  {
    match cls
    case ComponentEvent => p.componentCallbacks
    case ModalEvent => p.modalCallbacks
  }

  /** Python's `dict.get`: the stored value, or `None` when the key is missing. */
  function Get<F>(m: map<string, Handler<F>>, tag: string): (h: Handler<F>)
    ensures h.Callable? <==> tag in m && m[tag].Callable?
    ensures h.Callable? ==> h == m[tag]
  {
    if tag in m then m[tag] else PyNone
  }

  /** The state right after construction: no callback of either class is known. */
  function Init<F>(): (p: Persistence<F>)
    ensures |Table(p, ComponentEvent)| == 0 && |Table(p, ModalEvent)| == 0
  {
    Persistence(map[], map[])
  }

  /** `component(tag)(h)` when `cls` is `ComponentEvent`, `modal(tag)(h)` when it is
      `ModalEvent`: the new state, and the value the decorator hands back. */
  function Register<F>(p: Persistence<F>, cls: EventClass, tag: string, h: Handler<F>)
    : (r: (Persistence<F>, Handler<F>))
    ensures r.1 == h
    ensures tag in Table(r.0, cls) && Table(r.0, cls)[tag] == h
    ensures Table(r.0, cls).Keys == Table(p, cls).Keys + {tag}
    ensures forall t :: t in Table(p, cls) && t != tag ==> Table(r.0, cls)[t] == Table(p, cls)[t]
    ensures Table(r.0, cls.Other()) == Table(p, cls.Other())
  {
    match cls
    case ComponentEvent => (p.(componentCallbacks := p.componentCallbacks[tag := h]), h)
    case ModalEvent => (p.(modalCallbacks := p.modalCallbacks[tag := h]), h)
  }

  /** Registering the same tag of the same class twice keeps only the second callback. */
  lemma RegisterLastWins<F>(p: Persistence<F>, cls: EventClass, tag: string, a: Handler<F>, b: Handler<F>)
    ensures Register(Register(p, cls, tag, a).0, cls, tag, b).0 == Register(p, cls, tag, b).0
  {
  }

  /** Registrations under different tags, or in different classes, do not interfere:
      their order does not matter. */
  lemma RegisterCommutes<F>(p: Persistence<F>, c1: EventClass, t1: string, h1: Handler<F>,
                            c2: EventClass, t2: string, h2: Handler<F>)
    requires c1 != c2 || t1 != t2
    ensures Register(Register(p, c1, t1, h1).0, c2, t2, h2).0
         == Register(Register(p, c2, t2, h2).0, c1, t1, h1).0
  {
  }
}
