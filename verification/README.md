# Main screen state holder of WeatherApp, in Dafny

The weather app's main screen keeps one snapshot of UI state,
`MainViewState`. It has three fields: whether the location permission is
granted, whether the device's location settings are enabled, and the
optional default location. The screen's `MainViewModel` accepts three
intents: `GrantPermission`, `CheckLocationSettings` and `ReceiveLocation`.
Each one replaces the snapshot with a copy in which exactly one field is
overwritten. `ReceiveLocation` also sends the new location to the settings
repository.

The project has two modules:

- `MainViewReducer` (`reducer.dfy`) is the pure part. It holds the snapshot,
  intent and location datatypes and the reducer `Reduce`. It also gives
  `Reduce` an independent field-by-field reading: `Get` reads one field,
  `Touches` names the field an intent writes, and `Written` gives the value
  it writes. `ReduceAll` applies a stream of intents in arrival order, and
  `Persisted` lists the locations that stream sends to the repository. The
  lemmas prove:
  - last write wins, field by field;
  - applying an intent twice is the same as applying it once;
  - intents on different fields commute;
  - the stored location is always the last one persisted.
- `MainViewModelClass` (`view_model.dfy`) is the imperative part. The class
  `MainViewModel` has a mutable `state` field, the private `setState`
  (taking a reducer closure, as the source does) and `processIntent`. The
  class `SettingsRepository` records, as a ghost log, every location passed
  to `setDefaultLocation`. The view model keeps its own ghost log of the
  locations it has sent, because other holders may share the repository.
  The invariant `Valid()` says two things. First, the published snapshot is
  the initial snapshot with every processed intent applied in order.
  Second, the view model has sent exactly the locations those intents
  persist, in the same order.

Kotlin `Double` coordinates are modelled as `real`. The code only stores
and forwards them, so no floating-point behaviour matters. The sealed
`MainViewIntent` class is a datatype, and `when` is an exhaustive `match`.
That `processIntent` is total comes from `Reduce` having no precondition.

## Model

| member | source | states |
|---|---|---|
| `MainViewReducer.LocationOf` | app/src/main/java/com/github/odaridavid/weatherapp/MainViewModel.kt:30-34 | the location built from `ReceiveLocation(lat, lon)` has latitude `lat` and longitude `lon`; the reversed named-argument order swaps nothing |
| `MainViewReducer.Reduce` | app/src/main/java/com/github/odaridavid/weatherapp/MainViewModel.kt:22-41 | total over every state and intent; the field the intent touches holds the intent's value and every other field is unchanged |
| `MainViewReducer.ReduceIdempotent` | app/src/main/java/com/github/odaridavid/weatherapp/MainViewModel.kt:24-38 | applying the same intent twice gives the same snapshot as applying it once |
| `MainViewReducer.ReduceCommutes` | app/src/main/java/com/github/odaridavid/weatherapp/MainViewModel.kt:24-38 | two intents that touch different fields give the same snapshot in either order |
| `MainViewReducer.ReduceOverwrites` | app/src/main/java/com/github/odaridavid/weatherapp/MainViewModel.kt:24-38 | of two intents on the same field, the later one alone decides the result |
| `MainViewReducer.SentByMatchesStoredLocation` | app/src/main/java/com/github/odaridavid/weatherapp/MainViewModel.kt:24-38 | `ReceiveLocation` issues exactly one persistence call, with the same location it stores; the other two intents issue none |
| `MainViewReducer.LastWriteWins` | app/src/main/java/com/github/odaridavid/weatherapp/MainViewModel.kt:22-46 | after a stream of intents applied in order, each field holds the value of the last intent that touches it, or its prior value if none does |
| `MainViewReducer.ReduceAllAppend` | app/src/main/java/com/github/odaridavid/weatherapp/MainViewModel.kt:43-46 | applying `a + b` is applying `a` and then `b` to the resulting snapshot |
| `MainViewReducer.PersistedAppend` | app/src/main/java/com/github/odaridavid/weatherapp/MainViewModel.kt:35-37 | the persistence calls of `a + b` are those of `a` followed by those of `b` |
| `MainViewReducer.StoredLocationIsLastPersisted` | app/src/main/java/com/github/odaridavid/weatherapp/MainViewModel.kt:30-38 | after any stream of intents, the stored location is the last one sent to the repository, or the prior one if none was sent |
| `MainViewReducer.ReduceAllIdempotent` | app/src/main/java/com/github/odaridavid/weatherapp/MainViewModel.kt:22-46 | replaying a whole stream of intents on its own result changes nothing |
| `MainViewReducer.ExampleSession` | app/src/main/java/com/github/odaridavid/weatherapp/MainViewModel.kt:19-55 | from the initial state, granting permission, enabling settings and receiving (-1.3, 36.8) gives `{true, true, (-1.3, 36.8)}`; exactly that one location is persisted |
| `MainViewModelClass.SettingsRepository.SetDefaultLocation` | app/src/main/java/com/github/odaridavid/weatherapp/MainViewModel.kt:35-37 | appends the given location to the repository's log and changes nothing else |
| `MainViewModelClass.MainViewModel.constructor` | app/src/main/java/com/github/odaridavid/weatherapp/MainViewModel.kt:15-20 | the initial state is `isPermissionGranted = false`, `isLocationSettingEnabled = false`, `defaultLocation = null`; the repository is untouched; this view model has sent nothing yet; the invariant holds |
| `MainViewModelClass.MainViewModel.SetState` | app/src/main/java/com/github/odaridavid/weatherapp/MainViewModel.kt:43-46 | the new published state is the reducer applied to the current one |
| `MainViewModelClass.MainViewModel.ProcessIntent` | app/src/main/java/com/github/odaridavid/weatherapp/MainViewModel.kt:22-41 | the new state is `Reduce` of the old state and the intent; the view model's own log of sent locations and the repository's log each grow by exactly the location sent for `ReceiveLocation` and by nothing otherwise; the invariant is preserved, and it does not assume this view model is the repository's only writer |
| `MainViewModelClass.ExampleScreen` | app/src/main/java/com/github/odaridavid/weatherapp/MainViewModel.kt:15-46 | a client session on a fresh repository publishes `{true, true, (-1.3, 36.8)}` and sends that location exactly once, using only the class contracts |

## Left out

- Coroutine scheduling (`viewModelScope.launch`, `MutableStateFlow.emit`, dispatchers): every launched block is modelled as running to completion at once, in the order the source starts it, so for `ReceiveLocation` the persistence call comes before the state update. Launched blocks run on the main thread, and `emit` on a `MutableStateFlow` never suspends, so each state update reads and replaces the snapshot in one step and no update is lost. What the model does not capture is order and abandonment. A `processIntent` call made on the main thread is applied at once, while one made from another thread is queued on the main thread, so updates can apply in a different order from the calls. Blocks launched after the view model is cleared, both the state update and the persistence call, never run.
- `StateFlow` observation by the UI, the Android `ViewModel` lifecycle and Hilt injection: platform wiring with no logic of its own. The repository is passed to the constructor instead.
- `SettingsRepository` internals: how it persists a location and how it fails are not part of this model. It is modelled only as a ghost log of the locations it receives.
- `DefaultLocation`: only its two coordinate fields are modelled.
- `Double` coordinates: modelled as `real`, because they are only stored and passed on.
- `app/build.gradle.kts`: build and coverage configuration, no program logic.
- `RefreshWeatherUseCase`: an interface with no implementation, used by the UI layer rather than by the state holder.
