/** The state snapshot of the weather app's main screen, the intents that
    change it, and the pure reducer that maps a snapshot and an intent to
    the next snapshot.

    Each intent overwrites exactly one field of the snapshot. Besides the
    reducer itself, this module gives an independent, field-by-field reading
    of that behaviour (Field, Get, Touches, Written), the sequential
    application of a stream of intents (ReduceAll), and the locations that
    such a stream hands to the settings repository (Persisted). */
module MainViewReducer {

  datatype Option<T> = None | Some(value: T)

  /** A geographic position. The source stores and forwards the two
      coordinates without computing with them, so `real` stands for the
      source's double-precision values. */
  datatype DefaultLocation = DefaultLocation(latitude: real, longitude: real)

  /** The screen's snapshot; the defaults give the initial state. */
  datatype MainViewState = MainViewState(
    isPermissionGranted: bool := false,
    isLocationSettingEnabled: bool := false,
    defaultLocation: Option<DefaultLocation> := None)

  /** The closed set of intents the screen accepts. */
  datatype MainViewIntent =
    | GrantPermission(isGranted: bool)
    | CheckLocationSettings(isEnabled: bool)
    | ReceiveLocation(latitude: real, longitude: real)

  /** The snapshot the view model starts from. */
  function InitialState(): MainViewState {
    MainViewState()
  }

  /** The location a ReceiveLocation intent carries, built with its named
      arguments in the order the source writes them (longitude first). */
  function LocationOf(intent: MainViewIntent): (loc: DefaultLocation)
    requires intent.ReceiveLocation?
    ensures loc.latitude == intent.latitude && loc.longitude == intent.longitude
  {
    DefaultLocation(longitude := intent.longitude, latitude := intent.latitude)
  }

  // ---------------------------------------------------------------------
  // Field-wise reading of a snapshot

  /** The three fields of a snapshot. */
  datatype Field = PermissionField | LocationSettingField | LocationField

  /** The value held in one field. */
  datatype FieldValue = Flag(flag: bool) | Place(place: Option<DefaultLocation>)

  function Get(s: MainViewState, f: Field): FieldValue {
    match f
    case PermissionField => Flag(s.isPermissionGranted)
    case LocationSettingField => Flag(s.isLocationSettingEnabled)
    case LocationField => Place(s.defaultLocation)
  }

  /** The one field an intent writes. */
  function Touches(intent: MainViewIntent): Field {
    match intent
    case GrantPermission(_) => PermissionField
    case CheckLocationSettings(_) => LocationSettingField
    case ReceiveLocation(_, _) => LocationField
  }

  /** The value an intent writes into the field it touches. */
  function Written(intent: MainViewIntent): FieldValue {
    match intent
    case GrantPermission(isGranted) => Flag(isGranted)
    case CheckLocationSettings(isEnabled) => Flag(isEnabled)
    case ReceiveLocation(_, _) => Place(Some(LocationOf(intent)))
  }

  /** Two snapshots that agree on every field are the same snapshot. */
  lemma SameFieldsSameState(s: MainViewState, t: MainViewState)
    requires forall f :: Get(s, f) == Get(t, f)
    ensures s == t
  {
    assert Get(s, PermissionField) == Get(t, PermissionField);
    assert Get(s, LocationSettingField) == Get(t, LocationSettingField);
    assert Get(s, LocationField) == Get(t, LocationField);
  }

  // ---------------------------------------------------------------------
  // The reducer

  /** The next snapshot after one intent: the field the intent touches now
      holds the intent's value, and every other field is copied unchanged.
      The function is total: every intent is handled in every state. */
  function Reduce(s: MainViewState, intent: MainViewIntent): (r: MainViewState)
    ensures Get(r, Touches(intent)) == Written(intent)
    ensures forall f :: f != Touches(intent) ==> Get(r, f) == Get(s, f)
  {
    match intent
    case GrantPermission(isGranted) => s.(isPermissionGranted := isGranted)
    case CheckLocationSettings(isEnabled) => s.(isLocationSettingEnabled := isEnabled)
    case ReceiveLocation(_, _) => s.(defaultLocation := Some(LocationOf(intent)))
  }

  /** The next snapshot depends only on the intent in the field it
      touches: reducing twice with the same intent is reducing once. */
  lemma ReduceIdempotent(s: MainViewState, intent: MainViewIntent)
    ensures Reduce(Reduce(s, intent), intent) == Reduce(s, intent)
  {
  }

  /** Two intents that touch different fields can be applied in either order. */
  lemma ReduceCommutes(s: MainViewState, i: MainViewIntent, j: MainViewIntent)
    requires Touches(i) != Touches(j)
    ensures Reduce(Reduce(s, i), j) == Reduce(Reduce(s, j), i)
  {
  }

  /** Of two intents that touch the same field, the later one wins. */
  lemma ReduceOverwrites(s: MainViewState, i: MainViewIntent, j: MainViewIntent)
    requires Touches(i) == Touches(j)
    ensures Reduce(Reduce(s, i), j) == Reduce(s, j)
  {
  }

  // ---------------------------------------------------------------------
  // The side effect

  /** The locations one intent sends to the settings repository: the stored
      location for ReceiveLocation, nothing for the other two intents. */
  function SentBy(intent: MainViewIntent): seq<DefaultLocation> {
    if intent.ReceiveLocation? then [LocationOf(intent)] else []
  }

  /** ReceiveLocation issues exactly one persistence call, with the very
      value it stores; the other intents issue none. */
  lemma SentByMatchesStoredLocation(s: MainViewState, intent: MainViewIntent)
    ensures intent.ReceiveLocation? <==> |SentBy(intent)| == 1
    ensures !intent.ReceiveLocation? <==> SentBy(intent) == []
    ensures intent.ReceiveLocation? ==>
      Reduce(s, intent).defaultLocation == Some(SentBy(intent)[0]) &&
      SentBy(intent)[0] == DefaultLocation(intent.latitude, intent.longitude)
  {
  }

  // ---------------------------------------------------------------------
  // Streams of intents, applied one after the other in arrival order

  /** The snapshot after applying the intents from left to right. */
  function ReduceAll(s: MainViewState, intents: seq<MainViewIntent>): MainViewState
    decreases |intents|
  {
    if |intents| == 0 then s
    else Reduce(ReduceAll(s, intents[..|intents| - 1]), intents[|intents| - 1])
  }

  /** Every location handed to the settings repository, in call order. */
  function Persisted(intents: seq<MainViewIntent>): seq<DefaultLocation>
    decreases |intents|
  {
    if |intents| == 0 then []
    else Persisted(intents[..|intents| - 1]) + SentBy(intents[|intents| - 1])
  }

  /** The position of the last intent in the stream that touches field f,
      if there is one. */
  function Latest(intents: seq<MainViewIntent>, f: Field): (r: Option<nat>)
    ensures r.Some? ==>
      r.value < |intents| && Touches(intents[r.value]) == f &&
      forall k :: r.value < k < |intents| ==> Touches(intents[k]) != f
    ensures r.None? ==> forall k :: 0 <= k < |intents| ==> Touches(intents[k]) != f
    decreases |intents|
  {
    if |intents| == 0 then None
    else if Touches(intents[|intents| - 1]) == f then Some(|intents| - 1)
    else Latest(intents[..|intents| - 1], f)
  }

  /** Last write wins, field by field: after a stream of intents each field
      holds the value written by the last intent that touches it, or its
      prior value when no intent touches it. */
  lemma {:induction false} LastWriteWins(s: MainViewState, intents: seq<MainViewIntent>, f: Field)
    ensures Get(ReduceAll(s, intents), f) ==
      match Latest(intents, f)
      case None => Get(s, f)
      case Some(k) => Written(intents[k])
    decreases |intents|
  {
    if |intents| > 0 {
      var prefix := intents[..|intents| - 1];
      LastWriteWins(s, prefix, f);
      if Touches(intents[|intents| - 1]) != f {
        match Latest(prefix, f)
        case None =>
        case Some(k) => assert intents[k] == prefix[k];
      }
    }
  }

  /** Applying a concatenation is applying its two parts in turn. */
  lemma {:induction false} ReduceAllAppend(s: MainViewState, a: seq<MainViewIntent>, b: seq<MainViewIntent>)
    ensures ReduceAll(s, a + b) == ReduceAll(ReduceAll(s, a), b)
    decreases |b|
  {
    if |b| > 0 {
      var b' := b[..|b| - 1];
      assert (a + b)[..|a + b| - 1] == a + b';
      assert (a + b)[|a + b| - 1] == b[|b| - 1];
      ReduceAllAppend(s, a, b');
    } else {
      assert a + b == a;
    }
  }

  /** Persistence calls of a concatenation are those of its parts, in order. */
  lemma {:induction false} PersistedAppend(a: seq<MainViewIntent>, b: seq<MainViewIntent>)
    ensures Persisted(a + b) == Persisted(a) + Persisted(b)
    decreases |b|
  {
    if |b| > 0 {
      var b' := b[..|b| - 1];
      assert (a + b)[..|a + b| - 1] == a + b';
      assert (a + b)[|a + b| - 1] == b[|b| - 1];
      PersistedAppend(a, b');
    } else {
      assert a + b == a;
    }
  }

  /** The stored location is always the last one sent to the settings
      repository; with nothing sent, it is the prior location. */
  lemma {:induction false} StoredLocationIsLastPersisted(s: MainViewState, intents: seq<MainViewIntent>)
    ensures ReduceAll(s, intents).defaultLocation ==
      if Persisted(intents) == [] then s.defaultLocation
      else Some(Persisted(intents)[|Persisted(intents)| - 1])
    decreases |intents|
  {
    if |intents| > 0 {
      StoredLocationIsLastPersisted(s, intents[..|intents| - 1]);
    }
  }

  /** Replaying a whole stream of intents on its own result changes nothing. */
  lemma ReduceAllIdempotent(s: MainViewState, intents: seq<MainViewIntent>)
    ensures ReduceAll(ReduceAll(s, intents), intents) == ReduceAll(s, intents)
  {
    var once := ReduceAll(s, intents);
    var twice := ReduceAll(once, intents);
    forall f ensures Get(twice, f) == Get(once, f) {
      LastWriteWins(s, intents, f);
      LastWriteWins(once, intents, f);
    }
    SameFieldsSameState(twice, once);
  }

  /** The first steps of the main screen's session: permission granted,
      location settings enabled, then a fix at (-1.3, 36.8), which is both
      stored and sent to the settings repository once. */
  lemma ExampleSession()
    ensures ReduceAll(InitialState(),
      [GrantPermission(true), CheckLocationSettings(true), ReceiveLocation(-1.3, 36.8)])
      == MainViewState(true, true, Some(DefaultLocation(-1.3, 36.8)))
    ensures Persisted(
      [GrantPermission(true), CheckLocationSettings(true), ReceiveLocation(-1.3, 36.8)])
      == [DefaultLocation(-1.3, 36.8)]
  {
    var intents := [GrantPermission(true), CheckLocationSettings(true), ReceiveLocation(-1.3, 36.8)];
    var two, one := intents[..2], intents[..1];
    assert two[..1] == one && one[..0] == [];
    assert Persisted(one) == [];
    assert Persisted(two) == [];
  }
}
