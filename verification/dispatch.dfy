/** The two inbound listeners, `on_component` and `on_modal`, as one decision
    function per screen variant. The decoder (token parsing and decryption under
    the extension's cipher) is a parameter: it is not part of this model. */
module Dispatch {
  import opened Python
  import opened Registry
  import opened Screen

  /** What the decoder yields for a raw id: the tag and package it carried, or the
      exception it raised. */
  datatype Decoded<P> = Decoded(tag: string, package: P) | DecodeRaised(error: PyError)

  /** What one inbound event leads to. `Invoke` is the single awaited call of a
      callback; `Raised` is an exception that escapes the listener. */
  datatype Outcome<F, X, P> =
    | NotOurs
    | Malformed
    | NoHandler
    | Invoke(fn: F, ctx: X, package: P)
    | Raised(error: PyError)

  /** The last step of each listener. `on_component` tests membership and then calls
      whatever is stored, so a stored `None` raises `TypeError`; `on_modal` uses
      `get` and calls only a value that is not `None`. */
  function Call<F, X, P>(p: Persistence<F>, cls: EventClass, tag: string, ctx: X, package: P)
    : (o: Outcome<F, X, P>)
    ensures o.Invoke? <==> Get(Table(p, cls), tag).Callable?
    ensures o.Invoke? ==> o == Invoke(Table(p, cls)[tag].fn, ctx, package)
    ensures o.Raised? <==> cls == ComponentEvent && tag in Table(p, cls) && Table(p, cls)[tag] == PyNone
    ensures o.Raised? ==> o.error == TypeError
    ensures o.NoHandler? || o.Invoke? || o.Raised?
  {
    match cls
    case ComponentEvent =>
      if tag in p.componentCallbacks then
        match p.componentCallbacks[tag]
        case Callable(f) => Invoke(f, ctx, package)
        case PyNone => Raised(TypeError)
      else NoHandler
    case ModalEvent =>
      match Get(p.modalCallbacks, tag)
      case Callable(f) => Invoke(f, ctx, package)
      case PyNone => NoHandler
  }

  /** Everything after a passed screen: decode, catch only `JSONDecodeError`, and
      hand the decoded tag and package to `Call`. */
  function Route<F, X, P>(p: Persistence<F>, cls: EventClass, id: string, ctx: X,
                          decode: string -> Decoded<P>): (o: Outcome<F, X, P>)
    ensures o == Malformed <==> decode(id) == DecodeRaised(JsonDecodeError)
    ensures decode(id).DecodeRaised? && !decode(id).error.JsonDecodeError? ==> o == Raised(decode(id).error)
    ensures o.Invoke? <==> decode(id).Decoded? && Get(Table(p, cls), decode(id).tag).Callable?
    ensures o.Invoke? ==> o == Invoke(Table(p, cls)[decode(id).tag].fn, ctx, decode(id).package)
    ensures decode(id).Decoded? && decode(id).tag !in Table(p, cls) ==> o == NoHandler
    ensures decode(id).Decoded? && decode(id).tag in Table(p, cls) && Table(p, cls)[decode(id).tag] == PyNone
            ==> o == (if cls == ComponentEvent then Raised(TypeError) else NoHandler)
    ensures o != NotOurs
  {
    match decode(id)
    case DecodeRaised(e) => if e.JsonDecodeError? then Malformed else Raised(e)
    case Decoded(tag, package) => Call(p, cls, tag, ctx, package)
  }

  /** `on_component` (for `ComponentEvent`) and `on_modal` (for `ModalEvent`) as
      written, including the index error of their screening expression. */
  function OnEvent<F, X, P>(p: Persistence<F>, cls: EventClass, id: string, ctx: X,
                            decode: string -> Decoded<P>): (o: Outcome<F, X, P>)
    ensures !ScreenDefined(id) ==> o == Raised(IndexError)
    ensures o == NotOurs <==> ScreenDefined(id) && !HasHeader(id)
    ensures o == Malformed <==> ScreenDefined(id) && HasHeader(id) && decode(id) == DecodeRaised(JsonDecodeError)
    ensures o.Invoke? <==> ScreenDefined(id) && HasHeader(id) && decode(id).Decoded?
                           && Get(Table(p, cls), decode(id).tag).Callable?
    ensures o.Invoke? ==> o == Invoke(Table(p, cls)[decode(id).tag].fn, ctx, decode(id).package)
    ensures ScreenDefined(id) && HasHeader(id) && decode(id).DecodeRaised? && !decode(id).error.JsonDecodeError?
            ==> o == Raised(decode(id).error)
    ensures ScreenDefined(id) && HasHeader(id) && decode(id).Decoded? && decode(id).tag !in Table(p, cls)
            ==> o == NoHandler
    ensures ScreenDefined(id) && HasHeader(id) && decode(id).Decoded? && decode(id).tag in Table(p, cls)
            && Table(p, cls)[decode(id).tag] == PyNone
            ==> o == (if cls == ComponentEvent then Raised(TypeError) else NoHandler)
  {
    match ScreenAsWritten(id)
    case ScreenRaised(e) => Raised(e)
    case Reject => NotOurs
    case Accept => Route(p, cls, id, ctx, decode)
  }

  /** The listeners with the corrected screen: no id makes the screen itself raise. */
  function OnEventIntended<F, X, P>(p: Persistence<F>, cls: EventClass, id: string, ctx: X,
                                    decode: string -> Decoded<P>): (o: Outcome<F, X, P>)
    ensures o == NotOurs <==> !HasHeader(id)
    ensures o == Malformed <==> HasHeader(id) && decode(id) == DecodeRaised(JsonDecodeError)
    ensures o.Invoke? <==> HasHeader(id) && decode(id).Decoded? && Get(Table(p, cls), decode(id).tag).Callable?
    ensures o.Invoke? ==> o == Invoke(Table(p, cls)[decode(id).tag].fn, ctx, decode(id).package)
    ensures o.Raised? ==> HasHeader(id)
    ensures HasHeader(id) && decode(id).DecodeRaised? && !decode(id).error.JsonDecodeError?
            ==> o == Raised(decode(id).error)
    ensures HasHeader(id) && decode(id).Decoded? && decode(id).tag !in Table(p, cls) ==> o == NoHandler
    ensures HasHeader(id) && decode(id).Decoded? && decode(id).tag in Table(p, cls)
            && Table(p, cls)[decode(id).tag] == PyNone
            ==> o == (if cls == ComponentEvent then Raised(TypeError) else NoHandler)
  {
    if ScreenIntended(id) then Route(p, cls, id, ctx, decode) else NotOurs
  }

  /** The corrected listeners differ from the written ones only on ids where the
      written screen raises. */
  lemma IntendedAgreesWhereDefined<F, X, P>(p: Persistence<F>, cls: EventClass, id: string, ctx: X,
                                           decode: string -> Decoded<P>)
    requires ScreenDefined(id)
    ensures OnEventIntended(p, cls, id, ctx, decode) == OnEvent(p, cls, id, ctx, decode)
  {
    ScreensAgreeWhereDefined(id);
  }

  /** An id the screen does not accept never reaches the decoder: the outcome is the
      same whatever the decoder would have said. */
  lemma ScreenedOutIgnoresDecoder<F, X, P>(p: Persistence<F>, cls: EventClass, id: string, ctx: X,
                                          d1: string -> Decoded<P>, d2: string -> Decoded<P>)
    requires !(ScreenDefined(id) && HasHeader(id))
    ensures OnEvent(p, cls, id, ctx, d1) == OnEvent(p, cls, id, ctx, d2)
    ensures !HasHeader(id) ==> OnEventIntended(p, cls, id, ctx, d1) == OnEventIntended(p, cls, id, ctx, d2)
  {
  }

  /** An event consults only its own class's table: states that agree on that table
      give the same outcome. */
  lemma ClassIsolation<F, X, P>(p: Persistence<F>, q: Persistence<F>, cls: EventClass, id: string,
                                ctx: X, decode: string -> Decoded<P>)
    requires Table(p, cls) == Table(q, cls)
    ensures OnEvent(p, cls, id, ctx, decode) == OnEvent(q, cls, id, ctx, decode)
  {
  }

  /** Registering a callable for a tag makes an event of the same class whose id
      decodes to that tag invoke it, exactly once, with the event's context and the
      decoded package. */
  lemma RegisteredTagInvoked<F, X, P>(p: Persistence<F>, cls: EventClass, tag: string, f: F,
                                      id: string, ctx: X, package: P, decode: string -> Decoded<P>)
    requires ScreenDefined(id) && HasHeader(id)
    requires decode(id) == Decoded(tag, package)
    ensures OnEvent(Register(p, cls, tag, Callable(f)).0, cls, id, ctx, decode) == Invoke(f, ctx, package)
  {
  }

  /** Registering in one class changes nothing about how events of the other class
      are handled. */
  lemma OtherClassRegistrationInvisible<F, X, P>(p: Persistence<F>, cls: EventClass, tag: string,
                                                 h: Handler<F>, id: string, ctx: X,
                                                 decode: string -> Decoded<P>)
    ensures OnEvent(Register(p, cls.Other(), tag, h).0, cls, id, ctx, decode) == OnEvent(p, cls, id, ctx, decode)
  {
    ClassIsolation(Register(p, cls.Other(), tag, h).0, p, cls, id, ctx, decode);
  }

  /** A tag nobody registered is a silent no-op, in both classes. */
  lemma UnknownTagIsNoOp<F, X, P>(p: Persistence<F>, cls: EventClass, id: string, ctx: X,
                                  decode: string -> Decoded<P>)
    requires ScreenDefined(id) && HasHeader(id)
    requires decode(id).Decoded? && decode(id).tag !in Table(p, cls)
    ensures OnEvent(p, cls, id, ctx, decode) == NoHandler
  {
  }

  /** A registered `None`: the component listener calls it and raises `TypeError`,
      the modal listener skips it. */
  lemma RegisteredNoneDiffers<F, X, P>(p: Persistence<F>, tag: string, id: string, ctx: X,
                                       decode: string -> Decoded<P>)
    requires ScreenDefined(id) && HasHeader(id)
    requires decode(id).Decoded? && decode(id).tag == tag
    ensures OnEvent(Register(p, ComponentEvent, tag, PyNone).0, ComponentEvent, id, ctx, decode) == Raised(TypeError)
    ensures OnEvent(Register(p, ModalEvent, tag, PyNone).0, ModalEvent, id, ctx, decode) == NoHandler
  {
  }
}
