/**
 * The state reconciler of the terminal client's event loop
 * (`App::handle_events`, crates/piatui/src/app.rs): how one `data`
 * notification from the daemon changes the client's mirror of the daemon
 * state.
 *
 * The first notification that carries a `state` document initialises the
 * mirror by decoding that document. Every later `state` document is merged
 * into the mirror's serialized form by overwriting its top-level keys
 * wholesale, and the result is decoded again. A notification without a
 * `state` document leaves an existing mirror alone.
 */
module Reconciler {
  import opened Wrappers
  import opened Json
  import opened DaemonStateCodec
  import OptionalIpv4

  /** The one parameter of a `data` notification: three optional partial documents. */
  datatype DataParam = DataParam(account: Option<Members>, data: Option<Members>, state: Option<Members>)

  /** What one notification does to the mirror. */
  datatype Step =
    | Mirror(mirror: Option<DaemonState>)   // the mirror afterwards
    | Failed(error: DecodeError)            // decoding failed; the error is returned to the caller
    | Panicked                              // an `unwrap` or a map index on a missing key panicked

  /**
   * Overwrite every key of `update` in the document `doc`, key by key.
   * Indexing a `serde_json::Map` for assignment panics on a key it does not
   * hold, so the merge succeeds only when every key of the update is already
   * a key of the document (`None` stands for the panic).
   */
  function ShallowMerge(doc: Members, update: Members): (r: Option<Members>)
    ensures r.Some? <==> update.Keys <= doc.Keys
    ensures r.Some? ==> r.value.Keys == doc.Keys
    ensures r.Some? ==> forall k :: k in update ==> r.value[k] == update[k]
    ensures r.Some? ==> forall k :: k in doc && k !in update ==> r.value[k] == doc[k]
  {
    if update.Keys <= doc.Keys then Some(doc + update) else None
  }

  /** Merging the same update a second time changes nothing. */
  lemma ShallowMergeIdempotent(doc: Members, update: Members)
    requires ShallowMerge(doc, update).Some?
    ensures ShallowMerge(ShallowMerge(doc, update).value, update) == ShallowMerge(doc, update)
  {
    var merged := ShallowMerge(doc, update).value;
    assert merged + update == merged;
  }

  /**
   * The merge loop of `handle_events`: the document is updated in place, one
   * key of the update at a time, and the loop panics at a key the document
   * does not hold.
   */
  method MergeInto(doc: Members, update: Members) returns (merged: Option<Members>)
    ensures merged == ShallowMerge(doc, update)
  {
    var obj := doc;
    var todo := update.Keys;
    while todo != {}
      invariant todo <= update.Keys
      invariant update.Keys - todo <= doc.Keys
      invariant obj == doc + map k | k in update.Keys - todo :: update[k]
      decreases todo
    {
      var key :| key in todo;
      if key !in obj {
        return None;
      }
      obj := obj[key := update[key]];
      todo := todo - {key};
    }
    assert update.Keys - todo == update.Keys;
    assert (map k | k in update.Keys :: update[k]) == update;
    merged := Some(obj);
  }

  /** The effect of one `data` notification on the mirror. */
  function Reconcile(mirror: Option<DaemonState>, p: DataParam): (r: Step)
    ensures mirror.None? && p.state.None? ==> r == Panicked
    ensures mirror.Some? && p.state.None? ==> r == Mirror(mirror)
    ensures r.Mirror? && p.state.Some? ==> r.mirror.Some? && Valid(r.mirror.value)
    ensures mirror.Some? && p.state.Some? && Valid(mirror.value) ==>
              (r == Panicked <==> !(p.state.value.Keys <= StateKeys))
    ensures r.Failed? ==> p.state.Some?
    ensures mirror.None? && p.state.Some? ==>
              (r.Failed? <==> Decode(p.state.value).Err?) &&
              (r.Failed? ==> r.error == Decode(p.state.value).error)
    ensures mirror.None? && p.state.Some? && Decode(p.state.value).Ok? ==>
              r == Mirror(Some(Decode(p.state.value).value))
    ensures mirror.Some? && p.state.Some? && p.state.value.Keys <= Encode(mirror.value).Keys ==>
              var merged := Decode(Encode(mirror.value) + p.state.value);
              (r.Failed? <==> merged.Err?) && (r.Failed? ==> r.error == merged.error)
  {
    match mirror
    case None =>
      if p.state.None? then Panicked
      else (
        match Decode(p.state.value)
        case Ok(st) => Mirror(Some(st))
        case Err(e) => Failed(e))
    case Some(prior) =>
      if p.state.None? then Mirror(mirror)
      else
        match ShallowMerge(Encode(prior), p.state.value)
        case None => Panicked
        case Some(doc) =>
          (match Decode(doc)
           case Ok(st) => Mirror(Some(st))
           case Err(e) => Failed(e))
  }

  /**
   * After a notification that carries a state document, the serialized
   * mirror holds the document's value at each of its keys that is a field of
   * the state: the update's values win, wholesale.
   */
  lemma ReconcileTakesUpdateValues(mirror: Option<DaemonState>, p: DataParam)
    requires p.state.Some? && Reconcile(mirror, p).Mirror?
    ensures Reconcile(mirror, p).mirror.Some?
    ensures forall k :: k in p.state.value && k in StateKeys ==>
              Encode(Reconcile(mirror, p).mirror.value)[k] == p.state.value[k]
  {
    if mirror.None? {
      EncodeDecode(p.state.value);
    } else {
      EncodeDecode(ShallowMerge(Encode(mirror.value), p.state.value).value);
    }
  }

  /**
   * A merge touches only the keys of the update: every other key of the
   * serialized mirror keeps its old value.
   */
  lemma ReconcileKeepsOtherValues(mirror: Option<DaemonState>, p: DataParam)
    requires mirror.Some? && Valid(mirror.value)
    requires p.state.Some? && Reconcile(mirror, p).Mirror?
    ensures Reconcile(mirror, p).mirror.Some?
    ensures forall k :: k in StateKeys && k !in p.state.value ==>
              Encode(Reconcile(mirror, p).mirror.value)[k] == Encode(mirror.value)[k]
  {
    EncodeDecode(ShallowMerge(Encode(mirror.value), p.state.value).value);
  }

  /**
   * Applying the same notification twice has the effect of applying it once,
   * provided that, when it initialised the mirror, its document held only
   * keys of the state (a key the state does not have would make the second,
   * merging, application panic).
   */
  lemma ReconcileIdempotent(mirror: Option<DaemonState>, p: DataParam)
    requires mirror.Some? ==> Valid(mirror.value)
    requires Reconcile(mirror, p).Mirror?
    requires mirror.None? && p.state.Some? ==> p.state.value.Keys <= StateKeys
    ensures Reconcile(Reconcile(mirror, p).mirror, p) == Reconcile(mirror, p)
  {
    var next := Reconcile(mirror, p).mirror;
    if p.state.Some? {
      ReconcileTakesUpdateValues(mirror, p);
      var update := p.state.value;
      var st := next.value;
      var doc := Encode(st);
      assert update.Keys <= StateKeys;
      assert doc + update == doc;
      DecodeEncode(st);
    }
  }

  /**
   * The shallow-merge contract on an example: a notification whose state
   * document holds only `"connectionState": "Connected"` changes the
   * connection state of the mirror and nothing else.
   */
  lemma ConnectedUpdateChangesOnlyConnectionState(st: DaemonState)
    requires Valid(st)
    ensures Reconcile(Some(st), DataParam(None, None, Some(map[ConnectionStateKey := Str("Connected")])))
         == Mirror(Some(st.(connectionState := Connected)))
  {
    var update := map[ConnectionStateKey := Str(StateName(Connected))];
    assert update == map[ConnectionStateKey := Str("Connected")];
    var next := st.(connectionState := Connected);
    EncodeWithConnectionState(st, Connected);
    assert update.Keys <= Encode(st).Keys;
    assert ShallowMerge(Encode(st), update) == Some(Encode(next));
    DecodeEncode(next);
    assert Reconcile(Some(st), DataParam(None, None, Some(update))) == Mirror(Some(next));
  }

  /**
   * A state document merged into a mirror fails to decode exactly when it
   * gives one of the typed fields a value of the wrong shape; the error is
   * then an invalid value, and the mirror is left as it was.
   */
  lemma MergedDocumentFails(st: DaemonState, update: Members)
    requires Valid(st) && update.Keys <= StateKeys
    ensures var r := Reconcile(Some(st), DataParam(None, None, Some(update)));
            (r.Failed? <==> !WellTyped(update)) && (r.Failed? ==> r.error == InvalidValue)
  {
    var doc := Encode(st);
    var merged := doc + update;
    ReadStateName(st.connectionState);
    OptionalIpv4.DeserializeSerialize(st.externalIp);
    OptionalIpv4.DeserializeSerialize(st.externalVpnIp);
    assert WellTyped(doc);
    assert WellTyped(merged) <==> WellTyped(update);
    assert RequiredKeys <= merged.Keys;
  }

  lemma EncodeWithConnectionState(st: DaemonState, c: ConnectionState)
    ensures Encode(st) + map[ConnectionStateKey := Str(StateName(c))] == Encode(st.(connectionState := c))
  {
  }

  /**
   * `Reconcile` as the source is written, decoding through
   * `DecodeAsWritten`: a state document never produces a mirror.
   */
  function ReconcileAsWritten(mirror: Option<DaemonState>, p: DataParam): (r: Step)
    ensures p.state.Some? ==> !r.Mirror?
    ensures r.Mirror? ==> r == Mirror(mirror) && mirror.Some?
  {
    match mirror
    case None =>
      if p.state.None? then Panicked
      else (
        match DecodeAsWritten(p.state.value)
        case Ok(st) => Mirror(Some(st))
        case Err(e) => Failed(e))
    case Some(prior) =>
      if p.state.None? then Mirror(mirror)
      else
        match ShallowMerge(Encode(prior), p.state.value)
        case None => Panicked
        case Some(doc) =>
          (match DecodeAsWritten(doc)
           case Ok(st) => Mirror(Some(st))
           case Err(e) => Failed(e))
  }

}
