# Point-cloud viewer: upload filter, training panel and main view

This project models the small pieces of self-contained logic in a browser
client for viewing point clouds and its Flask back end:

- **Upload filter** (`upload_filter.dfy`, module `UploadFilter`). The back end
  accepts an uploaded file only if its name contains a dot and the text after
  the last dot, lower-cased, is `pts` or `md`. Python's `rsplit('.', 1)` and
  `str.lower()` are written out as functions (`RSplitOnce`, `Lower`). They are
  proved equivalent to a reference reading: "some dot is the last dot, and what
  follows it, lower-cased, is allowed". Further lemmas cover case-insensitivity
  and the worked cases.
- **Training panel** (`training_panel.dfy`, module `TrainingPanel`). The class
  `Panel` holds the fields `useAll`, `useAug`, `dataSize`, `max` and
  `augSettings`. Its handlers update those fields. `OnEnter` and
  `OnAugSettings` return the one training-settings record the component emits.
  The size is `max` when "use all" is checked and the chosen size otherwise.
  Augmentation is passed on only when it is switched on and at least one of
  noise, rotate and squeeze is enabled.
- **Main view** (`main_view.dfy`, module `MainPanel`). The class `MainView`
  holds the original and current point cloud, a lazily filled voxel-grid
  cache, the displayed data, the current tab and the prediction text. The
  voxelization routine is given to the view's constructor as a function. The
  view relies on nothing about it except that it is a function. The object
  invariant `Valid()` has two parts:
  - the cache is empty or equals `voxelize(pointcloud)`;
  - once a point cloud is loaded, tab 0 shows exactly the points and tab 1
    shows exactly their voxelization.

  Every handler preserves the invariant. A ghost counter of `voxelize` calls
  shows that the cache avoids repeated voxelization. `OnSegmented` turns the
  segment dictionary into a list with one entry per key.

`wrappers.dfy` holds the `Option` type, used wherever the source holds
`undefined`. A JavaScript array is truthy even when empty. So the source's
truth tests on `pointcloud` and `voxelgrid` are exactly `Some?` here.

## Model

| member | source | states |
|---|---|---|
| `UploadFilter.LowerChar` | app/app.py:107 | lower-casing changes exactly the letters A to Z, maps each of them to the matching letter a to z, and maps letters to letters |
| `UploadFilter.Lower` | app/app.py:107 | `str.lower()` keeps the length and lower-cases each character in place |
| `UploadFilter.LastIndexOf` | app/app.py:106-107 | finds no position exactly when the character is absent; otherwise finds a position holding it with no occurrence after it |
| `UploadFilter.RSplitOnce` | app/app.py:107 | `rsplit(sep, 1)` gives the whole string when `sep` is absent; otherwise it gives two parts that rebuild the string around `sep`, and the second part has no `sep` |
| `UploadFilter.SplitAtLastDot` | app/app.py:107 | splitting `stem + "." + ext`, where `ext` has no dot, yields exactly `[stem, ext]`, whatever dots the stem holds |
| `UploadFilter.SplitWitnessesReading` | app/app.py:106-107 | when the text after the last dot, as `rsplit` finds it, lower-cases to an allowed extension, that dot witnesses the reference reading |
| `UploadFilter.ReadingGivesSplit` | app/app.py:106-107 | a dot with no dot after it, followed by text that lower-cases to an allowed extension, is where `rsplit` splits, so the name passes the test |
| `UploadFilter.LastDotReading` | app/app.py:106-107 | the test on `rsplit('.', 1)[1]` holds if and only if some dot is the last dot and the text after it, lower-cased, is in `{pts, md}` |
| `UploadFilter.AllowedFile` | app/app.py:102-107 | `allowed_file`: a name is accepted if and only if some dot in it is the last dot and the text after that dot, lower-cased, is in the allowed set `{pts, md}` |
| `UploadFilter.ExtensionAfterLastDot` | app/app.py:36 | with the allowed set `{pts, md}`: for an extension without a dot, `stem.ext` is accepted if and only if the extension lower-cases to `pts` or `md`, whatever the stem holds; no other extension is accepted |
| `UploadFilter.NoDotRejected` | app/app.py:106 | a name without a dot is rejected |
| `UploadFilter.AllowedFileIgnoresCase` | app/app.py:107 | a name is accepted exactly when its lower-cased form is accepted |
| `UploadFilter.ExampleDoubleExtensionAccepted` | app/app.py:107 | "scan.tar.pts" is accepted, because only the text after the last dot counts |
| `UploadFilter.ExampleInnerExtensionRejected` | app/app.py:107 | "scan.pts.txt" is rejected |
| `UploadFilter.ExampleUpperCaseAccepted` | app/app.py:107 | "SCAN.PTS" is accepted |
| `UploadFilter.ExampleMixedCaseAccepted` | app/app.py:107 | "notes.Md" is accepted |
| `UploadFilter.ExampleTrailingDotRejected` | app/app.py:107 | "scan." gives an empty extension and is rejected |
| `UploadFilter.ExampleEmptyStemAccepted` | app/app.py:106-107 | ".pts" is accepted, because the stem may be empty |
| `TrainingPanel.Augment` | app/angular/src/app/training/trainingPanel/training-panel.component.ts:56-67 | no augmentation when augmentation is off, whatever the settings hold; none when there are no settings or no technique is enabled; otherwise exactly the stored settings |
| `TrainingPanel.Panel.constructor` | app/angular/src/app/training/trainingPanel/training-panel.component.ts:27-31 | a fresh panel uses all data, has augmentation off, holds no settings and has data size 0 |
| `TrainingPanel.Panel.Current` | app/angular/src/app/training/trainingPanel/training-panel.component.ts:50-53 | the record built from the fields: size `max` under "use all" and the data size otherwise; augmentation present if and only if it is on and some technique is enabled, and then exactly the stored settings |
| `TrainingPanel.Panel.OnUseAll` | app/angular/src/app/training/trainingPanel/training-panel.component.ts:37-42 | records the check box; checking it sets the data size to `max`; unchecking it leaves the size alone; no other field changes |
| `TrainingPanel.Panel.OnEnter` | app/angular/src/app/training/trainingPanel/training-panel.component.ts:49-54 | the emitted size is `max` under "use all" and the data size otherwise; augmentation is emitted if and only if it is on and some technique is enabled, and it is then the stored settings |
| `TrainingPanel.Panel.OnAugSettings` | app/angular/src/app/training/trainingPanel/training-panel.component.ts:44-47 | stores the new settings and emits exactly one record, derived from the updated fields |
| `TrainingPanel.UseAllThenCustomKeepsMax` | app/angular/src/app/training/trainingPanel/training-panel.component.ts:37-53 | checking and then unchecking "use all" changes only the check box and the data size, leaves the chosen size at the unchanged `max`, so the next record still asks for `max` |
| `MainPanel.ReselectIndex` | app/angular/src/app/mainPanel/main-view.component.ts:60 | the tab reselected after new data is the current tab when one is set, and 0 otherwise |
| `MainPanel.MainView.constructor` | app/angular/src/app/mainPanel/main-view.component.ts:35-42 | a fresh view has no data, no clouds, an empty cache, no tab and no prediction, and satisfies the invariant |
| `MainPanel.MainView.CacheValid` | app/angular/src/app/mainPanel/main-view.component.ts:100-102 | the voxel cache is either empty or holds the voxelization of the current point cloud |
| `MainPanel.MainView.Valid` | app/angular/src/app/mainPanel/main-view.component.ts:93-105 | the cache invariant, and: once a cloud is loaded, tab 0 displays exactly the cloud and tab 1 exactly its voxelization |
| `MainPanel.MainView.OnSelectionChanged` | app/angular/src/app/mainPanel/main-view.component.ts:93-105 | always records the tab; with a cloud, tab 0 shows the cloud and tab 1 shows its voxelization, calling `voxelize` only when the cache is empty; with no cloud or another tab the display and cache are unchanged; starting from a valid cache it restores the whole invariant |
| `MainPanel.MainView.NgOnChanges` | app/angular/src/app/mainPanel/main-view.component.ts:58-65 | reselects the current tab (0 when none is set), fills the cache only for tab 1, leaves the display alone without a cloud or on another tab, and clears the prediction |
| `MainPanel.MainView.OnPointCloud` | app/angular/src/app/mainPanel/main-view.component.ts:49-56 | a new cloud from the service becomes both the original and the current cloud; the cache is emptied before the tab is reselected, so it ends up empty or filled from the new cloud; with no cloud or on another tab the previous display stays |
| `MainPanel.MainView.OnOutputPoints` | app/angular/src/app/mainPanel/main-view.component.ts:71-78 | the given cloud becomes current, its voxelization refills the cache with exactly one call, the original cloud and the prediction are untouched, and on a tab other than 0 and 1 the display stays |
| `MainPanel.MainView.OnReset` | app/angular/src/app/mainPanel/main-view.component.ts:67-69 | the current cloud becomes the original one, the original and the prediction are unchanged, the cache holds its voxelization after exactly one call, and on a tab other than 0 and 1 the display stays |
| `MainPanel.MainView.OnPrediction` | app/angular/src/app/mainPanel/main-view.component.ts:80-82 | records the prediction text and keeps the invariant |
| `MainPanel.MainView.OnSegmented` | app/angular/src/app/mainPanel/main-view.component.ts:84-91 | the emitted list has one entry per dictionary key, in enumeration order, each being that key's value, and every value of the dictionary appears in it |
| `MainPanel.SegmentCount` | app/angular/src/app/mainPanel/main-view.component.ts:86-88 | a dictionary has exactly as many entries as it enumerates keys |
| `MainPanel.SelectVoxelTabTwice` | app/angular/src/app/mainPanel/main-view.component.ts:98-104 | selecting the voxel tab twice voxelizes exactly once from an empty cache and not at all from a filled one; afterwards tab 1 is current, the cache holds the voxelization of the unchanged cloud and the display shows it, and the original cloud and the prediction are unchanged |

## Left out

- `VoxelGridLoader.voxelize`: the module that defines it is not part of this model. The view receives it as a function parameter, and no property of its geometry is assumed or proved. The bounding-box camera fit lives in the same module and is not modelled either.
- UploadFilter.LowerChar, UploadFilter.Lower: lower-case only the ASCII letters A to Z. Python's `str.lower()` also maps non-ASCII letters. Only two non-ASCII characters lower-case to something containing an ASCII letter: the Kelvin sign (to `k`) and capital I with dot above (to `i` and a combining dot). Neither can produce `pts` or `md`, so the accept/reject verdict is the same.
- MainPanel.MainView.OnReset: requires the original cloud to be present. Before any cloud arrives, the source passes `undefined` to `voxelize`. What that does depends on the voxelization code, which is not part of this model.
- The Flask routes (`upload_file`, `cluster_point_cloud`, `index`, `send_js`) and the response headers: file-system I/O, filename sanitising, point-cloud loading and DBSCAN clustering in foreign libraries.
- `onSegmented`'s `trigger.closeMenu()` and `ngOnChanges`'s `formCom.reset()`: they close a menu and reset a child form, widget state this model does not hold.
- The key-enumeration order of a JavaScript object is taken as given (the `keys` sequence of `Segments`). The model does not compute it from the key strings.
- JavaScript arrays and numbers are modelled as values. After a service notification, `origPoints` and `pointcloud` are the same array object. No modelled code changes a point-cloud array in place, so this sharing changes no behaviour. `max`, `data_size` and the tab index are JavaScript doubles, modelled as `int`. The modelled code only copies and compares them, never does arithmetic on them.
- Event emitters and subscriptions: an emitted value is the return value of the handler that emits it. A service notification is a call of `OnPointCloud`.
- TrainingPanel.Panel.constructor: the `max` input is given when the panel is built. The model does not capture an unbound `max` (`undefined`).
- TrainingPanel.Panel: the template bindings that set `use_aug` and `data_size` are plain field assignments. The inputs `selection`, `structure` and `min` and the `strategies` list play no part in the logic and are not modelled.
- TrainingPanel.Technique: the augmentation settings type is not part of this model. Each technique's tuning values are carried as an unread map, and `enabled` is taken to be a boolean.
- The rendering component, the camera service, the HTTP service, the cluster form and the root component are UI and network plumbing. They are not modelled; the root component's `onSegments` repeats `onSegmented`.
