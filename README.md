# MultipleImagePicker: selection, grid rows and cell geometry

A model of the logic in the SwiftUI photo picker `MultipleImagePicker`
(`Source/MultipleImagePicker.swift`): the grid shows the photo library's
assets in rows of a fixed number of square cells, and tapping a cell adds
or removes its asset's id in the shared, ordered list `selectedIds`, which
the picker hands back to its caller.

Three parts are modelled, one module each:

- `Selection` (`selection.dfy`): the tap handler of `AssetImageSelectableView`
  as the class `SelectionList`, whose field `selectedIds: seq<string>` is
  changed in place by `Toggle` (`firstIndex(of:)`, then `remove(at:)` or
  `append`). `Contains` decides whether a cell shows its checkmark. The
  methods are proved against the functions `RemoveFirst` and `Toggled`, and
  the lemmas state what a tap, two taps and a series of taps do to the list.
- `Grid` (`grid.dfy`): the cutting of the asset list into rows in
  `AssetGrid.body`. `Chunk` is the reference definition. `CollectRows`
  follows `data.publisher.collect(columns).collect()` asset by asset, with a
  buffer that is emitted when full and once more, if non-empty, at the end.
  Assets are an opaque type parameter: the model needs only their order.
- `Geometry` (`geometry.dfy`): the constants of the picker, `rowTotalSpace`
  and `getImageSize` of `AssetGrid`, and `fontSize` and `offset` of the
  checkmark. `CGFloat` is modelled as exact `real` arithmetic.

`wrappers.dfy` holds the `Option` type that stands for Swift's `Int?`.

Two points about the code shape the model:

- The selection is an ordered list, not a set. A tap appends the id when
  it is absent and removes only its first occurrence when it is present.
  "No id twice" is an invariant that every tap preserves; `Toggle` does not
  require it.
- Degenerate layouts are not guarded. `ImageSize` requires a positive column
  count, because the side is a division by it. A width too small for the
  gaps is allowed and gives a non-positive side, as in the code. The
  contract states exactly when the side is positive.

## Model

| member | source | states |
|---|---|---|
| `Selection.SelectionList.constructor` | MultipleImagePicker/MultipleImagePicker/Source/MultipleImagePicker.swift:53 | the grid starts with an empty selection, which has no duplicates |
| `Selection.SelectionList.Contains` | MultipleImagePicker/MultipleImagePicker/Source/MultipleImagePicker.swift:141 | the checkmark is shown exactly when the selection list contains the asset's id |
| `Selection.SelectionList.Toggle` | MultipleImagePicker/MultipleImagePicker/Source/MultipleImagePicker.swift:149-156 | the new list is `Toggled` of the old one; it keeps "no id twice"; on such a list the tapped id flips in or out; every other id keeps its membership |
| `Selection.FirstIndex` | MultipleImagePicker/MultipleImagePicker/Source/MultipleImagePicker.swift:150 | returns None exactly when the id is absent, otherwise an index holding the id with no earlier occurrence |
| `Selection.RemoveFirstAt` | MultipleImagePicker/MultipleImagePicker/Source/MultipleImagePicker.swift:150-151 | removing the first occurrence found at `i` splices out exactly position `i` |
| `Selection.ToggleRemovesFirst` | MultipleImagePicker/MultipleImagePicker/Source/MultipleImagePicker.swift:150-152 | a tap on a selected id removes its first occurrence only: the others keep their order, the list shrinks by one, and one copy of the id leaves the multiset |
| `Selection.ToggleAppendsAbsent` | MultipleImagePicker/MultipleImagePicker/Source/MultipleImagePicker.swift:153-155 | a tap on an unselected id keeps the old list as a prefix and puts the id last |
| `Selection.ToggleKeepsOthers` | MultipleImagePicker/MultipleImagePicker/Source/MultipleImagePicker.swift:149-156 | a tap never changes whether any other id is selected |
| `Selection.ToggleKeepsNoDuplicates` | MultipleImagePicker/MultipleImagePicker/Source/MultipleImagePicker.swift:149-156 | on a list with no id twice, a tap keeps it so and flips the membership of the tapped id |
| `Selection.ToggleTwiceAbsent` | MultipleImagePicker/MultipleImagePicker/Source/MultipleImagePicker.swift:149-156 | two taps on an unselected id restore the list exactly |
| `Selection.ToggleTwicePresent` | MultipleImagePicker/MultipleImagePicker/Source/MultipleImagePicker.swift:149-156 | on a list with no id twice, two taps on a selected id keep the same ids (same multiset) and move that id to the end |
| `Selection.TapsAppendInOrder` | MultipleImagePicker/MultipleImagePicker/Source/MultipleImagePicker.swift:153-155 | from any starting list, taps on distinct ids none of which is selected append them in tap order |
| `Selection.TapsKeepNoDuplicates` | MultipleImagePicker/MultipleImagePicker/Source/MultipleImagePicker.swift:149-156 | any series of taps from a list with no id twice leaves such a list |
| `Selection.SelectInOrder` | MultipleImagePicker/MultipleImagePicker/Source/MultipleImagePicker.swift:153-155 | selecting distinct a, b, c gives `[a, b, c]` |
| `Selection.ReselectMovesToEnd` | MultipleImagePicker/MultipleImagePicker/Source/MultipleImagePicker.swift:149-156 | deselecting and reselecting b in `[a, b, c]` gives `[a, c, b]` |
| `Grid.CollectRows` | MultipleImagePicker/MultipleImagePicker/Source/MultipleImagePicker.swift:60-65 | the rows built from the buffered publisher are exactly `Chunk(data, columns)` |
| `Grid.ChunkFlattens` | MultipleImagePicker/MultipleImagePicker/Source/MultipleImagePicker.swift:62-64 | reading the rows one after another gives back the asset list in order |
| `Grid.ChunkRowLengths` | MultipleImagePicker/MultipleImagePicker/Source/MultipleImagePicker.swift:62-64 | every row but the last holds exactly `columns` assets; the last is non-empty with at most `columns` |
| `Grid.ChunkRowCount` | MultipleImagePicker/MultipleImagePicker/Source/MultipleImagePicker.swift:62-64 | the row count is the asset count divided by `columns`, rounded up; no assets give no rows |
| `Grid.ChunkAppend` | MultipleImagePicker/MultipleImagePicker/Source/MultipleImagePicker.swift:63 | after full rows, the rows of the remaining assets simply follow |
| `Grid.SevenAssetsInThreeColumns` | MultipleImagePicker/MultipleImagePicker/Source/MultipleImagePicker.swift:62-64 | seven assets in three columns give rows of 3, 3 and 1, in order |
| `Geometry.ImageSize` | MultipleImagePicker/MultipleImagePicker/Source/MultipleImagePicker.swift:103-106 | cells are square; `columns` cells plus the `columns + 1` gaps of `rowTotalSpace` (lines 55-57) fill the width exactly; the side is positive exactly when the width exceeds the gaps |
| `Geometry.ImageSizeMonotone` | MultipleImagePicker/MultipleImagePicker/Source/MultipleImagePicker.swift:103-106 | a wider grid never has smaller cells |
| `Geometry.ImageSizeOf320` | MultipleImagePicker/MultipleImagePicker/Source/MultipleImagePicker.swift:15-22 | with the picker's constants, 320 points and 3 columns give 100-point cells |
| `Geometry.FontSize` | MultipleImagePicker/MultipleImagePicker/Source/MultipleImagePicker.swift:123-126 | the checkmark size lies in [20, 35]; it is width/8 when that is in range, else the nearer bound |
| `Geometry.FontSizeMonotone` | MultipleImagePicker/MultipleImagePicker/Source/MultipleImagePicker.swift:124-126 | a wider cell never has a smaller checkmark |
| `Geometry.CheckmarkOffset` | MultipleImagePicker/MultipleImagePicker/Source/MultipleImagePicker.swift:128-130 | the offset is a third of the font size, so it lies in [20/3, 35/3] |

## Left out

- `AssetLoader` (image requests through `PHImageManager`, the hop to the main queue, the weak capture of `self`): asynchronous foreign calls. A nil image is ignored and the placeholder stays.
- `PhotoLibraryContainer` (authorization and fetch of all image assets, `print` logging): foreign calls and I/O. Only the authorized status leads to a fetch.
- `AssetImageSelectablePreferenceKey` and the sheet's `onPreferenceChange`: SwiftUI's mechanism for passing the selection up the view tree. Its `reduce` keeps the last value.
- `MultipleImagePickerSheet.swift` and `ContentView.swift`: presentation glue. The Done button is disabled for an empty selection and shows its count.
- SwiftUI layout (`VStack`, `List`, `ForEach`, padding, `GeometryReader`, corner radius) and the global `UITableView.appearance()` change: cosmetic.
- Selection: ids are compared character by character; Swift's canonical-equivalence `String` comparison (used by `contains` and `firstIndex(of:)`) is not modelled, which does not matter for asset identifiers, which are ASCII.
- Grid.Chunk: `collect(0)` is not modelled; a positive column count is required.
- Geometry.ImageSize: IEEE rounding of `CGFloat` is not modelled; a column count of zero divides by zero (infinity or NaN in `CGFloat`) and a negative one gives a negative side, and neither is modelled: a positive count is required.
