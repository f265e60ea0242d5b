/** The main screen's state holder: it keeps the current snapshot, applies
    each intent to it, and forwards received locations to the settings
    repository it is given at construction.

    Coroutine launches are modelled as running to completion immediately,
    in the order the source starts them, so every update applies its
    reducer to the snapshot left by the previous one. */
module MainViewModelClass {
  import opened MainViewReducer

  /** The settings repository, seen only through the locations passed to
      its setDefaultLocation operation. How it stores them, and whether
      storing fails, is outside the model. */
  class SettingsRepository {
    ghost var locations: seq<DefaultLocation>

    constructor ()
      ensures locations == []
    {
      locations := [];
    }

    method SetDefaultLocation(defaultLocation: DefaultLocation)
      modifies this
      ensures locations == old(locations) + [defaultLocation]
    {
      locations := locations + [defaultLocation];
    }
  }

  class MainViewModel {
    const settingsRepository: SettingsRepository
    /** The snapshot currently published to observers. */
    var state: MainViewState
    /** Every intent processed so far, in order. */
    ghost var intents: seq<MainViewIntent>
    /** Every location this view model has sent to the repository, in
        order. Others may share the repository, so its own log can hold
        more. */
    ghost var sent: seq<DefaultLocation>

    /** The published snapshot is the initial one with every processed
        intent applied in order, and this view model has sent exactly the
        locations those intents persist, in the same order. */
    ghost predicate Valid()
      reads this
    {
      state == ReduceAll(InitialState(), intents) &&
      sent == Persisted(intents)
    }

    constructor (settingsRepository: SettingsRepository)
      ensures Valid()
      ensures this.settingsRepository == settingsRepository
      ensures state == MainViewState(false, false, None)
      ensures intents == [] && sent == []
      ensures settingsRepository.locations == old(settingsRepository.locations)
    {
      this.settingsRepository := settingsRepository;
      state := InitialState();
      intents, sent := [], [];
    }

    /** Replaces the published snapshot by the reducer applied to it. */
    method SetState(stateReducer: MainViewState -> MainViewState)
      modifies this`state
      ensures state == stateReducer(old(state))
    {
      state := stateReducer(state);
    }

    /** Applies one intent to the published snapshot; a received location
        is also sent to the settings repository, once, before the snapshot
        is updated. */
    method ProcessIntent(mainViewIntent: MainViewIntent)
      requires Valid()
      modifies this, settingsRepository
      ensures Valid()
      ensures state == Reduce(old(state), mainViewIntent)
      ensures intents == old(intents) + [mainViewIntent]
      ensures sent == old(sent) + SentBy(mainViewIntent)
      ensures settingsRepository.locations == old(settingsRepository.locations) + SentBy(mainViewIntent)
    {
      match mainViewIntent {
        case GrantPermission(isGranted) =>
          SetState((s: MainViewState) => s.(isPermissionGranted := isGranted));
        case CheckLocationSettings(isEnabled) =>
          SetState((s: MainViewState) => s.(isLocationSettingEnabled := isEnabled));
        case ReceiveLocation(_, _) =>
          var defaultLocation := LocationOf(mainViewIntent);
          settingsRepository.SetDefaultLocation(defaultLocation);
          SetState((s: MainViewState) => s.(defaultLocation := Some(defaultLocation)));
      }
      ghost var before := intents;
      intents, sent := intents + [mainViewIntent], sent + SentBy(mainViewIntent);
      assert intents[..|intents| - 1] == before && intents[|intents| - 1] == mainViewIntent;
      assert ReduceAll(InitialState(), intents) == Reduce(ReduceAll(InitialState(), before), mainViewIntent);
      assert Persisted(intents) == Persisted(before) + SentBy(mainViewIntent);
    }
  }

  /** A session on a fresh repository: permission granted, location
      settings enabled, then a fix at (-1.3, 36.8). The fix is published
      and sent to the repository exactly once. */
  method ExampleScreen() returns (published: MainViewState, ghost sent: seq<DefaultLocation>)
    ensures published == MainViewState(true, true, Some(DefaultLocation(-1.3, 36.8)))
    ensures sent == [DefaultLocation(-1.3, 36.8)]
  {
    var repository := new SettingsRepository();
    var viewModel := new MainViewModel(repository);
    viewModel.ProcessIntent(GrantPermission(true));
    viewModel.ProcessIntent(CheckLocationSettings(true));
    viewModel.ProcessIntent(ReceiveLocation(-1.3, 36.8));
    published, sent := viewModel.state, repository.locations;
  }
}
