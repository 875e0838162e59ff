# A model of the piatui event loop, the `OptionalIpv4Addr` codec and the header translator

This project models three parts of a Rust client for the Private Internet
Access VPN daemon, and proves properties about them:

- **The terminal client's event loop.** `App` is in `crates/piatui/src/app.rs`.
  - One call of `handle_events` first drains the daemon connection.
    - Every `data` notification updates the client's mirror of the daemon state (`DaemonState`).
    - The first notification's `state` document is decoded.
    - Each later document is merged into the serialized mirror, key by key, and decoded again.
  - It then drains the terminal's pending input.
    - Ctrl-C stops the client.
    - Space sends `ConnectVPN` or `DisconnectVPN`, depending on the mirrored connection state.
  - `App` is a class with the fields the source mutates: the running flag, the mirror, and the commands written so far.
  - Each method is proved against a specification function (`Reconcile`, `DrainDaemon`, `DrainTerminal`).
  - The properties the client relies on are proved about those functions.
- **The `OptionalIpv4Addr` codec** (`crates/pia-rs/src/event/util.rs`).
  - The daemon writes a missing IPv4 address as `""` rather than `null`.
  - The codec relies on the standard library's `Ipv4Addr` text form, which is modelled in `Ipv4`.
- **The serde form of `DaemonState`** (`crates/pia-rs/src/event/state.rs`) that the reconciler encodes and decodes.
  - The document has one camelCase key per field.
  - Fields of `Option` type may be absent.
  - Unknown keys are ignored.
- **`scripts/translate.py`.** It turns `Json...(type, name, ...)` field declarations of a C++ header into Rust struct fields.
  - `translate_c_type` maps C++ types to Rust types.
  - `to_snake_case` converts camelCase names.
  - The per-line rewrite keeps comments, keeps blank lines, turns declarations into fields, and drops everything else.
  - Python's string semantics are modelled where the script depends on them:
    - Clamping negative slices.
    - `find`, `rindex` and `split(", ")`.
    - `str.strip()` with Python's whitespace set.
    - `IndexError` and the "invalid type" exception, as error values.

Modules: `Wrappers` (Option/Result), `Text` (digit predicates), `Json` (JSON values), `Ipv4`,
`OptionalIpv4`, `DaemonStateCodec`, `Reconciler`, `Tui` (the `App` class) and
`Translate`.

## Model

| member | source | states |
|---|---|---|
| Ipv4.ParseFormat | crates/pia-rs/src/event/util.rs:37-53 | parsing the dotted-decimal text of any address gives that address back |
| Ipv4.FormatParse | crates/pia-rs/src/event/util.rs:48-53 | any text that parses as an address is exactly the text written for it (no leading zeros, nothing around the four parts) |
| OptionalIpv4.Serialize | crates/pia-rs/src/event/util.rs:32-42 | the value is always a JSON string, and the string is empty exactly when there is no address |
| OptionalIpv4.Deserialize | crates/pia-rs/src/event/util.rs:43-55 | a non-string value is refused; "" is no address; a non-empty string decodes iff it parses as an address, and otherwise fails naming that text |
| OptionalIpv4.DeserializeSerialize | crates/pia-rs/src/event/util.rs:32-55 | deserializing what was serialized gives the value back, with or without an address |
| OptionalIpv4.SerializeDeserialize | crates/pia-rs/src/event/util.rs:32-55 | every JSON value that deserializes serializes back to itself (the encoding is canonical) |
| OptionalIpv4.DeserializeFromOwned | crates/pia-rs/src/event/util.rs:43-55 | as written, under `from_value` every value is refused, strings included |
| DaemonStateCodec.ReadConnectionState | crates/pia-rs/src/event/daemon/data.rs:106-118 | a connection state is read only from the string that names one of its variants |
| DaemonStateCodec.Encode | crates/pia-rs/src/event/state.rs:15-54 | the object has one key per field; the connection state is written as its variant name, the two addresses through the `OptionalIpv4Addr` codec; every other field keeps its value |
| DaemonStateCodec.Decode | crates/pia-rs/src/event/state.rs:15-54 | a document decodes iff every field it holds has the right type and every required key is present; a decoded state is well formed; a failure is "invalid value" exactly when some field has the wrong type, and "missing field" otherwise |
| DaemonStateCodec.DecodeEncode | crates/pia-rs/src/event/state.rs:15-54 | decoding the serialized form of a state gives the state back |
| DaemonStateCodec.EncodeDecode | crates/pia-rs/src/event/state.rs:15-54 | re-serializing a decoded state reproduces every field of the document, a missing optional field as `null` |
| DaemonStateCodec.DecodeIgnoresUnknownKeys | crates/pia-rs/src/event/state.rs:15-17 | keys that are not fields never change the outcome of a decode |
| OptionalIpv4.OwnedRefusesSerialized | crates/pia-rs/src/event/util.rs:32-55 | `deserialize` as written refuses under `from_value` even the value `serialize` writes, which the intended codec reads back |
| DaemonStateCodec.DecodeAsWritten | crates/pia-rs/src/event/state.rs:52-54 | as written, no document decodes; the error is "missing field" exactly when the document is well typed and holds neither address field |
| DaemonStateCodec.AsWrittenRefusesEncoded | crates/pia-rs/src/event/state.rs:15-54 | as written, the serialized form of every state is refused as an invalid value, though the intended decoder gives the state back |
| Reconciler.ShallowMerge | crates/piatui/src/app.rs:45-47 | the merge succeeds iff every key of the update is a key of the document; the keys stay the same, the update's values win and every other value is kept |
| Reconciler.ShallowMergeIdempotent | crates/piatui/src/app.rs:45-47 | merging the same update twice is merging it once |
| Reconciler.MergeInto | crates/piatui/src/app.rs:40-47 | the key-by-key loop that overwrites the document in place computes the shallow merge, and panics on a key the document does not hold |
| Reconciler.Reconcile | crates/piatui/src/app.rs:32-50 | no mirror and no state document panics; a mirror without a document is kept; the first document that decodes becomes the mirror, exactly the decoded state; a new mirror is always a decoded state; with a mirror, the merge panics iff the document has a key that is not a field; only a document can fail to decode; the first document fails exactly when it does not decode, and a later one exactly when the mirror's serialized form overwritten with it does not, with that decode error |
| Reconciler.ReconcileTakesUpdateValues | crates/piatui/src/app.rs:38-48 | after a notification with a state document, the serialized mirror holds the document's value at each of its field keys |
| Reconciler.ReconcileKeepsOtherValues | crates/piatui/src/app.rs:38-48 | a merge leaves every field the document does not mention as it was |
| Reconciler.ReconcileIdempotent | crates/piatui/src/app.rs:32-50 | applying a notification twice is applying it once, if its document holds only field keys whenever it initialises the mirror |
| Reconciler.MergedDocumentFails | crates/piatui/src/app.rs:38-48 | with a mirror, a document of field keys is rejected iff one of its values has the wrong type, and the error is then "invalid value" |
| Reconciler.ConnectedUpdateChangesOnlyConnectionState | crates/piatui/src/app.rs:38-48 | a document `{"connectionState": "Connected"}` sets the mirrored connection state and changes nothing else |
| Reconciler.ReconcileAsWritten | crates/piatui/src/app.rs:32-50 | as written, a notification with a state document never yields a mirror; only a notification without one keeps an existing mirror |
| Tui.SpaceCommand | crates/piatui/src/app.rs:66-85 | Space asks to connect iff the mirror says Disconnected, asks to disconnect iff it says Connected, and does nothing otherwise or without a mirror |
| Tui.DrainDaemon | crates/piatui/src/app.rs:28-56 | draining keeps the mirror a decoded state, never loses an existing mirror, and ends the call only with an error or a panic |
| Tui.DrainTerminal | crates/piatui/src/app.rs:57-90 | the terminal can only stop the client, never panics, and sends at most one command per input |
| Tui.DrainTerminalSends | crates/piatui/src/app.rs:66-85 | every command sent is the one the mirror calls for, and every write spent on a sent command succeeded |
| Tui.DrainTerminalWithoutFailures | crates/piatui/src/app.rs:57-90 | without input or write errors the call finishes, the client stops iff a Ctrl-C was pending, and one command goes out per Space whenever the mirror calls for one |
| Tui.DrainDaemonStopsAtWouldBlock | crates/piatui/src/app.rs:53 | nothing after the first "would block" is read from the daemon connection |
| Tui.DrainDaemonWithoutState | crates/piatui/src/app.rs:38-39 | notifications without a state document leave an existing mirror alone, and only an I/O error from the connection can end the call |
| Tui.DrainDaemonAsWritten | crates/piatui/src/app.rs:28-56 | as written, a client that starts without a mirror never gets one, and the call never ends with success |
| Tui.AsWrittenRefusesFirstDocument | crates/piatui/src/app.rs:32-36 | as written, a first state document that the intended decoder accepts ends the call with an invalid-value error and no mirror |
| Tui.FirstDocumentSetsMirror | crates/piatui/src/app.rs:32-36 | the first state document that decodes sets the mirror to the decoded state, and draining goes on from that mirror |
| Tui.DrainDaemonAppend | crates/piatui/src/app.rs:28-52 | notifications that do not end the call can be drained first, and the rest drained against the mirror they leave |
| Tui.PollFailureEndsCall | crates/piatui/src/app.rs:54 | an I/O error from the daemon connection ends the call with that error, keeping the mirror the earlier notifications built |
| Tui.DecodeFailureEndsCall | crates/piatui/src/app.rs:34-48 | a notification whose state document does not decode ends the call with that decode error and leaves the mirror as it was |
| Tui.PanicEndsCall | crates/piatui/src/app.rs:33-47 | a notification whose reconciliation panics (no state document before any mirror, or an update key that is not a field) ends the call with a panic and leaves the mirror as it was |
| Tui.DrainTerminalAppend | crates/piatui/src/app.rs:58-88 | input that finishes can be drained first; the rest is drained with the running flag it leaves and the writes it did not use, and the commands sent are the two runs' in order |
| Tui.InputFailureEndsCall | crates/piatui/src/app.rs:58-59 | an error from `poll` or `read` ends the call with that error, keeping the running flag and the commands of the input before it, and nothing after it is read |
| Tui.WriteFailureEndsCall | crates/piatui/src/app.rs:74-82 | a Space whose command write fails ends the call with that write's error, keeping what the input before it did, and nothing after it is read |
| Tui.App.constructor | crates/piatui/src/app.rs:93-101 | a new client is running, has no mirror and has sent nothing |
| Tui.App.Send | crates/piatui/src/app.rs:74-82 | a command is appended to what was sent exactly when its write does not fail |
| Tui.App.Receive | crates/piatui/src/app.rs:32-50 | one notification updates the mirror as `Reconcile` says, and leaves it as it was on an error or a panic |
| Tui.App.DrainConnection | crates/piatui/src/app.rs:28-56 | the loop over the daemon connection leaves the mirror, and returns the outcome, that `DrainDaemon` specifies |
| Tui.App.PressSpace | crates/piatui/src/app.rs:66-85 | Space sends exactly the command `SpaceCommand` picks; the result is false only when that write fails |
| Tui.App.ReadInput | crates/piatui/src/app.rs:59-87 | handling one pending input either ends the call with the outcome, running flag and commands `DrainTerminal` gives for the whole input, or leaves a state from which draining the rest with the unused writes gives the same result |
| Tui.App.DrainInput | crates/piatui/src/app.rs:57-90 | the loop over terminal input sets the running flag, appends the commands and returns the outcome that `DrainTerminal` specifies |
| Tui.App.HandleEvents | crates/piatui/src/app.rs:27-91 | the daemon is drained first; if that ends the call, the running flag and the commands sent are untouched; otherwise the terminal is drained against the new mirror |
| Translate.Find | scripts/translate.py:7 | `find` gives -1 iff the character is absent, and otherwise its first index |
| Translate.FindLast | scripts/translate.py:67 | `rindex` finds the last occurrence, or reports that there is none |
| Translate.FindComma | scripts/translate.py:67 | the first ", " of the arguments, or -1 iff there is none |
| Translate.LastColons | scripts/translate.py:16 | `rindex("::")` finds the start of the last "::", or reports that there is none |
| Translate.LastSegment | scripts/translate.py:16 | the segment after the last "::" ends the name, and is the whole name when there is no ':' |
| Translate.LastSegmentOfQualified | scripts/translate.py:16 | in `<prefix>::<name>`, with no ':' in the name, the segment is the name |
| Translate.SliceBeforeEnd | scripts/translate.py:10 | Python's `s[a:-k]`: its length, clamped at zero, and the characters it takes |
| Translate.SliceFrom | scripts/translate.py:38 | Python's `s[a:]`: its length, clamped at zero, and the characters it takes |
| Translate.TranslateSegment | scripts/translate.py:16-42 | a table name gives its table entry; an `IndexError` iff the segment is "" or "q"; every other error is "invalid type" naming the segment; a translation is never empty |
| Translate.TranslateName | scripts/translate.py:13-42 | a translation of a non-generic type is never empty |
| Translate.TranslateCType | scripts/translate.py:6-47 | a translation is never empty, generic or not |
| Translate.QualifiersIgnored | scripts/translate.py:13-16 | a leading "const " and a namespace prefix do not change the translation of a plain name |
| Translate.FixedTypes | scripts/translate.py:17-28 | the seven table names translate to their fixed Rust types, plain, qualified or const |
| Translate.WidthNames | scripts/translate.py:30-38 | `int<w>_t` and `qint<w>` become `i<w>`; `uint<w>_t` and `quint<w>` become `u<w>` |
| Translate.UppercasePassesThrough | scripts/translate.py:39-40 | any other name starting with an uppercase letter passes through unchanged, plain or qualified |
| Translate.InvalidTypeRaised | scripts/translate.py:41-42 | any other lowercase name, plain or qualified, is an invalid type, and the error names the segment |
| Translate.Generic | scripts/translate.py:7-11 | `T<U>` translates as T's translation applied to U's, and U's error is raised first |
| Translate.ToSnakeCase | scripts/translate.py:50-53 | no uppercase letter is left, and the name grows by one character per uppercase letter |
| Translate.ToSnakeCaseIdentity | scripts/translate.py:50-53 | a name without uppercase letters is left unchanged |
| Translate.ToSnakeCaseIdempotent | scripts/translate.py:50-53 | converting twice is converting once |
| Translate.FromSnakeCaseToSnakeCase | scripts/translate.py:50-53 | a camelCase name without '_' can be recovered from its snake_case form |
| Translate.TrimStart | scripts/translate.py:57 | the leading-whitespace trim leaves a suffix that does not start with whitespace |
| Translate.TrimEnd | scripts/translate.py:57 | the trailing-whitespace trim leaves a prefix that does not end with whitespace |
| Translate.Strip | scripts/translate.py:57 | `strip()` leaves no whitespace at either end |
| Translate.StripPadded | scripts/translate.py:57 | whitespace added around a line does not change its stripped form |
| Translate.FirstPart | scripts/translate.py:67 | the name argument is a prefix of the text after the first ", " and holds no ", " |
| Translate.FieldLine | scripts/translate.py:67-69 | a declaration that translates becomes one output line ending in "," |
| Translate.FieldArguments | scripts/translate.py:67-69 | split arguments that translate become one output line ending in "," |
| Translate.TransformLine | scripts/translate.py:56-69 | a line produces no output iff, once stripped, it is non-empty and starts with neither "//" nor "Json" |
| Translate.CommentLine | scripts/translate.py:59-61 | a comment line is printed stripped, with one more '/' in front (a "///" doc comment) |
| Translate.BlankLine | scripts/translate.py:57-64 | a line of only whitespace is printed as an empty line |
| Translate.TransformIgnoresSurroundingSpace | scripts/translate.py:57 | whitespace around a line does not change what the line becomes |
| Translate.FieldDeclaration | scripts/translate.py:66-69 | `Json<kind>(<type>, <name>, ...)` becomes `<snake_case name>: <Rust type>,`, whatever the ignored extra arguments hold (parentheses included), and an untranslatable type gives the translator's error |
| Translate.ParenthesisMissing | scripts/translate.py:66-67 | a `Json` line without a '(' or without a ')' raises the `index`/`rindex` error |
| Translate.ArgumentsMissing | scripts/translate.py:67 | a declaration whose arguments hold no ", " raises the unpacking error: there is no name |
| Translate.FieldWithDefault | scripts/translate.py:66-69 | a `QString` field with a default argument, which may hold parentheses, becomes `<snake_case name>: String,` |

## Left out

- The daemon connection (`pia_rs::DaemonConnection`) is not modelled: the JSON-RPC framing, the Unix socket, the acknowledgement and retry logic, and the process-wide connection singleton.
  - What `conn.poll()` returns during one call is a parameter: a sequence of notifications, "would block" and I/O errors. Running out of the sequence counts as "would block".
  - Whether each `conn.send` fails is a parameter: a sequence of write outcomes, used one per command sent, in order. Once it runs out, every write succeeds.
- The terminal is not modelled. What `crossterm::event::poll`/`read` deliver during one call is a parameter: a sequence of events and I/O errors. Its end is the moment `poll` reports nothing pending.
- Key-event kinds (press/release/repeat) and modifiers other than Control are not modelled.
- Rendering (`render_frame` and the `Widget` implementation) is not modelled, and neither is the trivial `is_running` getter.
- Tui.App.constructor: `take_connection().unwrap()` is not modelled, since the connection is outside the model; the constructor cannot panic.
- DaemonStateCodec.Decode:
  - Only the three fields the client inspects are decoded with their types.
  - The other fields of `DaemonState` are carried as opaque JSON, so a value of the wrong shape in one of them is not rejected.
  - serde's error messages are reduced to "invalid value" and "missing field".
- `serde_json::from_value` is not modelled at the level of serde's borrowing rules. Its one effect on this model, that `OptionalIpv4Addr` cannot be read from an owned value, is under "## Findings"; the rest of the model decodes addresses as the codec intends.
- DaemonStateCodec.ReadConnectionState: reads a connection state only from a variant name given as a string. The object form `{"Connected": null}`, which serde_json also accepts for a unit variant, is not modelled.
- Numbers in JSON are integers here. No field the client inspects is a float; what serde does to the floats among the other fields is on the next line.
- DaemonStateCodec.EncodeDecode, Reconciler.ReconcileTakesUpdateValues, Reconciler.ReconcileKeepsOtherValues: these hold only for documents whose opaque fields are already in the form serde writes back. The model carries every field it does not inspect as an uninterpreted JSON value and assumes that form.
  - serde rebuilds the whole state on every merge (crates/piatui/src/app.rs:41). That rounds the `f32` coordinates of region displays (crates/pia-rs/src/event/state.rs:533-534).
  - It also drops unknown keys inside nested structs such as `ConnectedServer` (crates/pia-rs/src/event/state.rs:487-490), and writes their missing `Option` fields as `null`.
- The script's `open(0).readlines()` input and its `print` output are not modelled. `TransformLine` gives each line's output (`None` for no output), and an uncaught exception is an error value.
- Ipv4.Format, Ipv4.Parse: these stand in for `Ipv4Addr`'s `Display` and `FromStr`. They are written from the behaviour of the Rust standard library, which is not part of this model, and their contract is the pair of round trips `Ipv4.ParseFormat` and `Ipv4.FormatParse`.

## Findings

| source | as written | input that shows it | evidently intended | confidence | as-written member | corrected member |
|---|---|---|---|---|---|---|
| crates/pia-rs/src/event/util.rs:48 | `deserialize` first reads a borrowed `&str`. The client decodes with `serde_json::from_value` on an owned value (crates/piatui/src/app.rs:34, crates/piatui/src/app.rs:48), which cannot lend one, so every address is refused. Both address fields are required (crates/pia-rs/src/event/state.rs:52-54), so every state document fails to decode and the mirror is never set | the first notification carrying the serialized form of any state, e.g. one with `"externalIp": ""` | read an owned string, so that "" is no address and dotted-decimal text is an address | not executed; read from the code | Tui.AsWrittenRefusesFirstDocument | Tui.FirstDocumentSetsMirror |
