# Persistence extension: callback registry and inbound dispatcher

This project models the core of the `Persistence` extension for interactions.py:
the two tag-to-callback tables it keeps (one for message components, one for
modal submissions), the `component(tag)` / `modal(tag)` decorators that fill
them, and the `on_component` / `on_modal` listeners. For each inbound event, a
listener screens the raw `custom_id` for the extension's `p…~` header. It then
decodes the id into a `(tag, package)` pair, swallows `JSONDecodeError`, and
awaits the callback registered for that tag in its own class's table.

The model is functional:

- `python.dfy`: `Python.PyError`, the exceptions that matter to the listeners.
- `registry.dfy`: `Registry.Persistence` is the state record with the two maps.
  `Registry.Register` is both decorators, parameterised by `EventClass`. It returns
  the new state and the value the decorator hands back. `Registry.Handler` is the
  value stored: a callable or Python `None`.
- `screen.dfy`: the screening expression as written (`Screen.ScreenAsWritten`,
  which can raise `IndexError`) and as evidently intended (`Screen.ScreenIntended`).
  Both are proved to agree with an independent description of the header, `Screen.HasHeader`.
- `dispatch.dfy`: `Dispatch.OnEvent` is one listener call. It returns an `Outcome`:
  `NotOurs`, `Malformed`, `NoHandler`, `Invoke(fn, ctx, package)` or
  `Raised(error)`. The decoder is the parameter `decode: string -> Decoded<P>`.
  Callbacks, contexts and packages are type parameters.
- `startup.dfy`: `Startup.RegisterAll` folds a run of decorator applications
  in which component and modal registrations interleave in any order. Importing
  the modules that declare callbacks produces such a run.

The decoder parameter stands for `PersistentCustomID.from_discord` applied with
the extension's cipher. Token parsing and the cipher are not part of this model.

## Model

| member | source | states |
|---|---|---|
| `Registry.Init` | interactions/ext/persistence/persistence.py:35-46 | a freshly constructed extension has an empty component table and an empty modal table |
| `Registry.Register` | interactions/ext/persistence/persistence.py:54-82 | the decorator returns the callback it was given; afterwards the tag maps to it in the chosen class's table, the table's keys grow by exactly that tag, every other tag keeps its entry, and the other class's table is unchanged |
| `Registry.Get` | interactions/ext/persistence/persistence.py:117 | `dict.get` yields a callable exactly when the tag is present and holds one, and then it is the stored value |
| `Registry.RegisterLastWins` | interactions/ext/persistence/persistence.py:62-63 | registering the same tag twice in one class leaves the same state as registering only the second callback |
| `Registry.RegisterCommutes` | interactions/ext/persistence/persistence.py:62-80 | registrations under different tags, or in different classes, can be done in either order with the same result |
| `Screen.ScreenAsWritten` | interactions/ext/persistence/persistence.py:87-91 | the screen raises `IndexError` exactly on the empty id and on ids that start with `p` and are shorter than 3 characters; on every other id it accepts exactly the ids with the header (`p~`, or `p` and `~` at index 2) |
| `Screen.ScreenIntended` | interactions/ext/persistence/persistence.py:87-90 | the corrected screen is total and accepts exactly the ids with the header |
| `Screen.ScreensAgreeWhereDefined` | interactions/ext/persistence/persistence.py:87-90 | on every id where the written screen does not raise, it gives the corrected screen's verdict |
| `Screen.ShortHeaderRaises` | interactions/ext/persistence/persistence.py:87-89 | `"p~"` carries the header, yet the written screen raises `IndexError` on it instead of accepting it |
| `Screen.ForeignShortIdRaises` | interactions/ext/persistence/persistence.py:87-89 | `"pa"` does not carry the header, yet the written screen raises `IndexError` on it instead of ignoring it |
| `Dispatch.Call` | interactions/ext/persistence/persistence.py:99-119 | a callback is invoked, once and with `(ctx, package)`, iff the class's own table holds a callable under the tag; a stored `None` raises `TypeError` for components and is skipped for modals; anything else is a no-op |
| `Dispatch.Route` | interactions/ext/persistence/persistence.py:93-100 | only `JSONDecodeError` from the decoder is caught (outcome `Malformed`); any other decoder exception escapes unchanged; a decoded id leads to an invocation iff its tag has a callable; an absent tag is a no-op, and a stored `None` raises `TypeError` for components and is a no-op for modals |
| `Dispatch.OnEvent` | interactions/ext/persistence/persistence.py:84-119 | a listener raises `IndexError` on every id the screen cannot evaluate, returns without decoding exactly on headerless ids, reports `Malformed` exactly on a screened id whose decoding raises `JSONDecodeError`, and lets any other decoder exception escape. It invokes the class's callback with `(ctx, package)` exactly when the id is screened, decodes and its tag has a callable. A decoded tag that is absent is a no-op; one that holds `None` raises `TypeError` for components and is a no-op for modals |
| `Dispatch.OnEventIntended` | interactions/ext/persistence/persistence.py:84-119 | with the corrected screen, exactly the headerless ids are ignored and the screen never raises; for ids with the header, the decoder-error, invocation, absent-tag and `None` outcomes are those of `OnEvent` |
| `Dispatch.IntendedAgreesWhereDefined` | interactions/ext/persistence/persistence.py:87-91 | the corrected and written listeners give the same outcome on every id where the written screen does not raise |
| `Dispatch.ScreenedOutIgnoresDecoder` | interactions/ext/persistence/persistence.py:87-94 | an id the screen does not accept has the same outcome whatever the decoder would say: the decoder is never consulted |
| `Dispatch.ClassIsolation` | interactions/ext/persistence/persistence.py:99-119 | the outcome of an event depends only on its own class's table: a component event never consults the modal table, and a modal event never consults the component table |
| `Dispatch.RegisteredTagInvoked` | interactions/ext/persistence/persistence.py:62-100 | after registering callable `f` under `tag`, an event of that class whose id screens in and decodes to `(tag, package)` invokes `f(ctx, package)` |
| `Dispatch.OtherClassRegistrationInvisible` | interactions/ext/persistence/persistence.py:77-100 | registering in one class does not change the outcome of any event of the other class |
| `Dispatch.UnknownTagIsNoOp` | interactions/ext/persistence/persistence.py:99-119 | a decoded tag that is absent from the class's table invokes nothing and raises nothing |
| `Dispatch.RegisteredNoneDiffers` | interactions/ext/persistence/persistence.py:99-119 | a registered `None` makes the component listener raise `TypeError` and the modal listener do nothing |
| `Startup.OfClass` | interactions/ext/persistence/persistence.py:62-78 | the part of a run selected for one class holds only registrations of that class |
| `Startup.OfClassPartitions` | interactions/ext/persistence/persistence.py:62-78 | the component part and the modal part of a run together hold every registration of the run, each once |
| `Startup.RegisterAll` | interactions/ext/persistence/persistence.py:54-82 | a run of registrations that mixes both classes never removes a tag from either table |
| `Startup.RegisterAllKeys` | interactions/ext/persistence/persistence.py:62-78 | after a mixed run, each class's keys are its earlier keys plus exactly the tags the run registers in that class |
| `Startup.LastRegistrationWins` | interactions/ext/persistence/persistence.py:62-63 | after a run, each tag maps, in each class, to the callback from its last registration in that class |
| `Startup.UnmentionedTagKept` | interactions/ext/persistence/persistence.py:62-63 | a tag that no registration of a class in the run mentions keeps its entry in that class's table, or stays absent |
| `Startup.RunDependsOnlyOnOwnTable` | interactions/ext/persistence/persistence.py:62-82 | the table of a class after a run depends only on that class's starting table |
| `Startup.RunSeparatesClasses` | interactions/ext/persistence/persistence.py:62-82 | in a mixed run, each class's resulting table is what that class's own registrations alone, in their order, produce |
| `Startup.StartupInterleavingIrrelevant` | interactions/ext/persistence/persistence.py:35-82 | from a fresh extension, two runs with the same component registrations in the same order and the same modal registrations in the same order build the same state, however the two classes interleave |

## Left out

- Token decoding (`PersistentCustomID.from_discord`) and the cipher (`Cipher`): their source is not part of this model. Decoding is the uninterpreted parameter `decode`. Encryption, JSON encoding and the 100-character limit are not modelled.
- `async`/`await` and the `@inter.listen()` subscription: an awaited call is the `Invoke` outcome. Exceptions raised inside a callback belong to the application and are not modelled.
- The callback's return value: `on_component` awaits the callback and discards the result, and so does `on_modal`. The model follows the code. It does not pass a component callback's return value back to the caller.
- `logging.debug` / `logging.info`: side-effect-only output.
- Setting `bot.persistence`, `bot.persistent_component` and `bot.persistent_modal` (persistence.py:48-52): mutation of the host client object.
- `client.py`: its decorators only forward to `component` / `modal`, so `Registry.Register` covers them.
- `base.py`: package metadata, and a `setup` that only calls the constructor.
- "Dispatch never modifies a table" is not a separate statement. `Dispatch.OnEvent` takes the state as a value and returns only an `Outcome`, so it cannot change a table.

## Findings

| source | as written | input that shows it | evidently intended | confidence | as-written member | corrected member |
|---|---|---|---|---|---|---|
| interactions/ext/persistence/persistence.py:87-90 | both tuple elements are evaluated before `any`, so `custom_id[0]` and `custom_id[2]` are read even when `startswith("p~")` already decided the answer; `on_modal` repeats the expression at lines 105-108 | `"p~"` has the header, and `"pa"` and `"p"` are ids of other components: on all three the listener raises `IndexError` instead of accepting or ignoring the id | a total screen that accepts exactly `p~…` and `p?~…` | high, not executed | `Screen.ScreenAsWritten` | `Screen.ScreenIntended` |

`Screen.ShortHeaderRaises` and `Screen.ForeignShortIdRaises` exhibit the written behaviour on those inputs. `Dispatch.OnEventIntended` is the listener built on the corrected screen. `Dispatch.IntendedAgreesWhereDefined` shows that the two listeners differ only where the written screen raises.
