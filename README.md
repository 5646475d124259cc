# Munchies, modelled in Dafny

Munchies is an iOS app that lists restaurants, lets the user narrow the list
by filter tags, and shows whether a chosen restaurant is open. This project
models the logic under its screens and proves what that logic promises:

- **Filter tags line** (`Restaurant.filterTagsText`, module `Models`): the
  names of the filters a restaurant carries, in the order of the filter
  list, joined with " • ".
- **Delivery-time label** (`RestaurantCardView.deliveryTimeText`, module
  `RestaurantCard`): "1 min", "<n> mins", "1 hour", "<h> hours" or
  "<h> hour <m> mins". Reading the label back recovers the minutes, so no
  two delivery times share a label. The mixed form always says "hour" and
  "mins", even for "2 hour 5 mins" and "1 hour 1 mins".
- **Hex colours** (`Color.init(hex:)`, module `StyleGuide`): trimming the
  non-alphanumeric characters at both ends, scanning the hex number, and
  splitting it into alpha, red, green and blue for 3, 6 and 8 digits. Every
  other length gives opaque black. Every channel is a byte. Colours written
  as "#AARRGGBB" or "#RRGGBB" read back unchanged, and each palette colour
  decodes to the bytes written in it.
- **List view model** (`RestaurantViewModel`, module `RestaurantList`): a
  class with the restaurants, the filters, the selected filter ids, the
  loading flag and the error message.
  - `filteredRestaurants` keeps the restaurants that carry every selected id.
    It keeps their order and returns everything when nothing is selected.
  - `toggleFilter` and `clearFilters` edit the selection and nothing else.
  - `loadData` stores the fetched restaurants and then the fetched filters,
    sorted by name in descending order, and records either failure as
    "Failed to load data: " plus the error's description.
  - Whatever order the sort gives filters with equal names, the names shown
    are the same.
- **Detail view model** (`RestaurantDetailViewModel`, module
  `RestaurantDetail`): `loadRestaurantStatus` asks for the screen's own
  restaurant id. It sets `isOpen` from the answer, or resets it and sets
  "Unable to load restaurant status". Loading ends in both cases.
- **The unit tests as scenarios** (modules `RestaurantListScenarios` and
  `RestaurantDetailScenarios`, fixtures in `TestData`): each test's setup is
  replayed on the model, with the mock fetcher as a function. The test's
  expectations become the scenario's postcondition.

Supporting modules:

- `Text` models `joined(separator:)`, the decimal rendering of an `Int` and
  the order on `String`. It also splits a string on single spaces (`Words`);
  the app never does this, and only the model's parser for delivery-time
  labels (`RestaurantCard.ParseDeliveryTime`) uses it.
- `Wrappers` holds `Option` and `Result`.

The rows for the two view models in the table below cite the unit tests that
exercise them. The lines of the view models themselves are these:

- `RestaurantViewModel.swift`: stored state at 12-16, `filteredRestaurants`
  at 21-29 with the empty-selection guard at 22-24, and `loadData` at 40-57.
  Within `loadData`, the requested ids are at 48, the sort is at 50 and the
  error message is at 53. `toggleFilter` is at 59-65, `isFilterSelected` at
  67-69 and `clearFilters` at 71-73.
- `RestaurantDetailViewModel.swift`: the initial state and initializer at
  12-22, and `loadRestaurantStatus` at 24-37.

Fetches are not performed. A view-model method takes the outcome of each
fetch as a parameter: a `Result` for the restaurant list, and a function
from the requested ids to a `Result` for the filter and status fetchers.

## Model

| member | source | states |
|---|---|---|
| Text.Join | Munchies/Models/Restaurant.swift:32 | no parts give ""; otherwise the text starts with the first part; the characters it holds are given by JoinCountChar, and Models.SplitJoin undoes it on the tag separator |
| Text.NatToString | Munchies/Views/RestaurantCardView.swift:114-116 | the numeral is a non-empty run of decimal digits that starts with '0' only for zero; ParseNatToString reads it back |
| Text.IntToString | Munchies/Views/RestaurantCardView.swift:119 | the text is a bare numeral exactly for non-negative values, and a minus sign before a numeral otherwise; ParseIntToString reads it back |
| Text.JoinCountChar | Munchies/Models/Restaurant.swift:32 | joining k parts contains the parts' own occurrences of a character plus k − 1 times the separator's |
| Text.ParseIntToString | Munchies/Views/RestaurantCardView.swift:119 | the decimal text of any `Int`, negative ones included, reads back as that `Int` |
| Text.NatToStringInjective | Munchies/Views/RestaurantCardView.swift:114-116 | different hour or minute counts are written differently |
| Text.LexLessTotal | MunchiesTests/ViewModels/RestaurantViewModelTests.swift:69-85 | any two different names are ordered one way or the other |
| Text.LexLessTransitive | MunchiesTests/ViewModels/RestaurantViewModelTests.swift:69-85 | the name order is transitive |
| Text.LexLessAsymmetric | MunchiesTests/ViewModels/RestaurantViewModelTests.swift:69-85 | no two names are each smaller than the other |
| Models.MatchingFilters | Munchies/Models/Restaurant.swift:30 | never more filters than given; which filters are kept is stated by MatchingFiltersMembership, their order by MatchingFiltersAppend and MatchedInOrder |
| Models.Names | Munchies/Models/Restaurant.swift:31 | one name per filter, the k-th name being the k-th filter's |
| Models.TagNames | Munchies/Models/Restaurant.swift:30-31 | at most one name per listed filter; TagNamesMembership and TagsFollowFilterOrder state which names and in what order |
| Models.FilterTagsText | Munchies/Models/Restaurant.swift:29-33 | no matching filter gives ""; otherwise the line starts with the first matching filter's name; FilterTagsTextSingle, FilterTagsTextBulletCount and FilterTagsTextSplits state the rest |
| Models.MatchingFiltersMembership | Munchies/Models/Restaurant.swift:30 | a filter is kept exactly when it is in the list and its id is among the restaurant's ids |
| Models.MatchingFiltersAppend | Munchies/Models/Restaurant.swift:30 | the matches of two concatenated filter lists are the matches of each, in order |
| Models.TagNamesMembership | Munchies/Models/Restaurant.swift:29-31 | a name is shown exactly when some listed filter with that name has its id among the restaurant's ids |
| Models.TagsFollowFilterOrder | Munchies/Models/Restaurant.swift:30-31 | two matching filters have their names shown in the order of the filter list |
| Models.FilterTagsTextIgnoresIdOrder | Munchies/Models/Restaurant.swift:30 | restaurants with the same set of filter ids get the same line, whatever the order or repetition of their ids |
| Models.MatchingFiltersSameIds | Munchies/Models/Restaurant.swift:30 | only membership in the id list decides which filters match |
| Models.FilterTagsTextEmpty | MunchiesTests/Models/RestaurantTests.swift:15-32 | with no filter whose id the restaurant carries, including an empty filter list, there are no names and the line is empty |
| Models.FilterTagsTextSingle | MunchiesTests/Models/RestaurantTests.swift:34-44 | with exactly one matching filter the line is that filter's name, without a separator |
| Models.FilterTagsTextBulletCount | MunchiesTests/Models/RestaurantTests.swift:60-75 | with k ≥ 1 matching names free of bullets, the line holds exactly k − 1 bullets |
| Models.SplitJoin | Munchies/Models/Restaurant.swift:32 | splitting a line joined with " • " on that separator gives back the parts, when there is at least one part and none holds a bullet |
| Models.FilterTagsTextSplits | MunchiesTests/Models/RestaurantTests.swift:91-105 | when some filter matches and no filter name holds a bullet, the components of the tag line between separators are exactly the matching names, in filter order |
| Models.TagNamesPermutation | MunchiesTests/Models/RestaurantTests.swift:91-106 | reordering the filter list reorders the shown names and changes no name or count |
| RestaurantCard.DeliveryTimeText | Munchies/Views/RestaurantCardView.swift:108-121 | every label is at least five characters long and ends in the singular "min" exactly for one minute; MinuteWords, WholeHourWords, MixedWords and DeliveryTimeRoundTrip state the rest |
| RestaurantCard.MinuteWords | Munchies/Views/RestaurantCardView.swift:118-119 | under an hour the label is the minutes followed by "min" for exactly one minute and "mins" otherwise |
| RestaurantCard.WholeHourWords | Munchies/Views/RestaurantCardView.swift:110-114 | whole hours give the hours followed by "hour" for 60 minutes and "hours" otherwise |
| RestaurantCard.MixedWords | Munchies/Views/RestaurantCardView.swift:110-116 | hours with a remainder give "<minutes / 60> hour <minutes % 60> mins" |
| RestaurantCard.DeliveryTimeRoundTrip | Munchies/Views/RestaurantCardView.swift:108-121 | reading the label back gives the minutes, so hours × 60 + remaining minutes is the delivery time |
| RestaurantCard.DeliveryTimeInjective | Munchies/Views/RestaurantCardView.swift:108-121 | two different delivery times never get the same label |
| RestaurantCard.DeliveryTimeForms | Munchies/Views/RestaurantCardView.swift:110-119 | an hour form exactly from 60 minutes on; the four-word mixed form exactly when the hours leave a remainder; "1 min" exactly for 1 and "1 hour" exactly for 60 |
| RestaurantCard.TwoHourQuirk | Munchies/Views/RestaurantCardView.swift:116 | 125 minutes read "2 hour 5 mins", singular "hour" after two hours |
| RestaurantCard.OneMinuteQuirk | Munchies/Views/RestaurantCardView.swift:116 | 61 minutes read "1 hour 1 mins", plural "mins" after one minute |
| StyleGuide.TrimNonAlphanumerics | Munchies/Resources/StyleGuide.swift:75 | the result is no longer than the text and starts and ends with a letter or digit, or is empty; TrimSurrounding and TrimIdempotent state what is kept |
| StyleGuide.TrimStart | Munchies/Resources/StyleGuide.swift:75 | the result is a suffix of the text, everything dropped is non-alphanumeric, and it starts with a letter or digit or is empty |
| StyleGuide.TrimEnd | Munchies/Resources/StyleGuide.swift:75 | the result is a prefix of the text, everything dropped is non-alphanumeric, and it ends with a letter or digit or is empty |
| StyleGuide.TrimSurrounding | Munchies/Resources/StyleGuide.swift:75 | non-alphanumeric characters around a text that starts and ends with a letter or digit are removed and the text is kept whole |
| StyleGuide.TrimIdempotent | Munchies/Resources/StyleGuide.swift:75 | trimming a trimmed text changes nothing |
| StyleGuide.HexValue | Munchies/Resources/StyleGuide.swift:77 | n hex digits denote a value below 16^n |
| StyleGuide.HexRunLength | Munchies/Resources/StyleGuide.swift:77 | the scanner reads the longest run of hex digits at the start |
| StyleGuide.ScanHex | Munchies/Resources/StyleGuide.swift:77 | the scanned value of a text of n characters is below 16^n |
| StyleGuide.ColorFromHex | Munchies/Resources/StyleGuide.swift:74-88 | every channel is between 0 and 255, for every input |
| StyleGuide.ThreeDigitColor | Munchies/Resources/StyleGuide.swift:80-81 | three hex digits give alpha 255 and each channel its digit times 17 |
| StyleGuide.SixDigitColor | Munchies/Resources/StyleGuide.swift:82-83 | six hex digits give alpha 255 and red, green and blue the three digit pairs |
| StyleGuide.EightDigitColor | Munchies/Resources/StyleGuide.swift:84-85 | eight hex digits give alpha, red, green and blue the four digit pairs |
| StyleGuide.OtherLengthColor | Munchies/Resources/StyleGuide.swift:86-87 | any other trimmed length gives (255, 0, 0, 0) |
| StyleGuide.ArgbHexRoundTrip | Munchies/Resources/StyleGuide.swift:74-88 | a colour written as "#AARRGGBB" decodes to that colour |
| StyleGuide.RgbHexRoundTrip | Munchies/Resources/StyleGuide.swift:74-88 | a colour written as "#RRGGBB" decodes to that colour with alpha 255 |
| StyleGuide.PaletteColor | Munchies/Resources/StyleGuide.swift:45-65 | six bare hex digits decode to alpha 255 and the three bytes as written |
| StyleGuide.DarkTextColor | Munchies/Resources/StyleGuide.swift:45 | "1F2B2E" is (255, 0x1F, 0x2B, 0x2E) |
| StyleGuide.LightTextColor | Munchies/Resources/StyleGuide.swift:46 | "FFFFFF" is opaque white |
| StyleGuide.RatingTextColor | Munchies/Resources/StyleGuide.swift:47 | "50555C" is (255, 0x50, 0x55, 0x5C) |
| StyleGuide.SubtitleColor | Munchies/Resources/StyleGuide.swift:50 | "999999" is (255, 0x99, 0x99, 0x99) |
| StyleGuide.BackgroundColor | Munchies/Resources/StyleGuide.swift:53 | "F8F8F8" is (255, 0xF8, 0xF8, 0xF8) |
| StyleGuide.SelectedColor | Munchies/Resources/StyleGuide.swift:56 | "E2A364" is (255, 0xE2, 0xA3, 0x64) |
| StyleGuide.PositiveColor | Munchies/Resources/StyleGuide.swift:59 | "2ECC71" is (255, 0x2E, 0xCC, 0x71) |
| StyleGuide.NegativeColor | Munchies/Resources/StyleGuide.swift:62 | "C0392B" is (255, 0xC0, 0x39, 0x2B) |
| StyleGuide.StarColor | Munchies/Resources/StyleGuide.swift:65 | "F9CA24" is (255, 0xF9, 0xCA, 0x24) |
| StyleGuide.CardIconColor | Munchies/Views/RestaurantCardView.swift:82 | lower-case "ff5252" is (255, 0xFF, 0x52, 0x52) |
| StyleGuide.CardRatingColor | Munchies/Views/RestaurantCardView.swift:86 | lower-case "50555c" decodes like "50555C" |
| RestaurantList.CarriesAll | MunchiesTests/ViewModels/RestaurantViewModelTests.swift:156-189 | the empty selection is carried by every restaurant, and a restaurant with no filter ids carries only the empty selection |
| RestaurantList.KeepCarrying | MunchiesTests/ViewModels/RestaurantViewModelTests.swift:156-189 | a restaurant is kept exactly when it carries every selected id; never more restaurants than given |
| RestaurantList.FilterBySelection | MunchiesTests/ViewModels/RestaurantViewModelTests.swift:129-189 | an empty selection returns the list unchanged; otherwise a restaurant is returned exactly when it carries every selected id |
| RestaurantList.KeepCarryingNothing | MunchiesTests/ViewModels/RestaurantViewModelTests.swift:129-140 | the empty-selection guard changes nothing: filtering by no ids keeps every restaurant |
| RestaurantList.FilterBySelectionAppend | MunchiesTests/ViewModels/RestaurantViewModelTests.swift:156-172 | filtering keeps the list's order |
| RestaurantList.SelectionComposes | MunchiesTests/ViewModels/RestaurantViewModelTests.swift:156-189 | selecting two sets of ids together filters as filtering by one and then by the other |
| RestaurantList.SelectingMoreNarrows | MunchiesTests/ViewModels/RestaurantViewModelTests.swift:142-189 | a larger selection never shows more restaurants |
| RestaurantList.Toggled | MunchiesTests/ViewModels/RestaurantViewModelTests.swift:89-112 | the toggled id flips between selected and not; every other id keeps its state |
| RestaurantList.ToggleTwice | MunchiesTests/ViewModels/RestaurantViewModelTests.swift:101-112 | toggling the same id twice gives back the selection |
| RestaurantList.InsertByName | MunchiesTests/ViewModels/RestaurantViewModelTests.swift:69-85 | inserting into a descending list keeps it descending and adds exactly the one filter |
| RestaurantList.SortByNameDescending | MunchiesTests/ViewModels/RestaurantViewModelTests.swift:69-85 | the result is in descending name order and is a permutation of the fetched filters |
| RestaurantList.DescendingUnique | MunchiesTests/ViewModels/RestaurantViewModelTests.swift:69-85 | two descending arrangements of the same names are identical |
| RestaurantList.SortedNamesDetermined | MunchiesTests/ViewModels/RestaurantViewModelTests.swift:69-85 | whatever order the sort gives equal names, the names shown equal those of any other descending arrangement of the same filters |
| RestaurantList.SameSortedNames | MunchiesTests/ViewModels/RestaurantViewModelTests.swift:69-85 | two descending arrangements of the same filters show the same names in the same order |
| RestaurantList.AllFilterIds | MunchiesTests/ViewModels/RestaurantViewModelTests.swift:37-52 | an id is requested exactly when some fetched restaurant carries it |
| RestaurantList.RestaurantViewModel.constructor | MunchiesTests/ViewModels/RestaurantViewModelTests.swift:18-26 | no restaurants, filters or selection, loading, no error |
| RestaurantList.RestaurantViewModel.FilteredRestaurants | MunchiesTests/ViewModels/RestaurantViewModelTests.swift:129-189 | all restaurants with nothing selected; otherwise exactly those carrying every selected id |
| RestaurantList.RestaurantViewModel.IsFilterSelected | MunchiesTests/ViewModels/RestaurantViewModelTests.swift:89-125 | nothing is selected after the selection is emptied; ToggleFilter states that it flips for the toggled id |
| RestaurantList.RestaurantViewModel.ToggleFilter | MunchiesTests/ViewModels/RestaurantViewModelTests.swift:89-112 | `isFilterSelected` flips for the toggled id; the other ids and every other field are unchanged |
| RestaurantList.RestaurantViewModel.ClearFilters | MunchiesTests/ViewModels/RestaurantViewModelTests.swift:114-125 | the selection is empty, so every restaurant shows; nothing else changes |
| RestaurantList.RestaurantViewModel.LoadData | MunchiesTests/ViewModels/RestaurantViewModelTests.swift:37-85 | loading ends; a failed restaurant fetch keeps restaurants and filters and sets "Failed to load data: " plus the error; otherwise the restaurants are stored and the filters are fetched for every id they carry; a failed filter fetch keeps the old filters and sets the message; on success the filters are the fetched ones sorted descending, with no error; the selection is untouched and the filters stay sorted |
| RestaurantListScenarios.MockFilters | MunchiesTests/Mocks/MockNetworkService.swift:62-70 | the mock answers with the configured filters whose id was requested, all of them when all ids are requested |
| RestaurantListScenarios.FixtureFilterIdsRequested | MunchiesTests/Helpers/TestData.swift:38-69 | the fixture restaurants carry exactly filter-1, filter-2 and filter-3 |
| RestaurantListScenarios.OneFilterMatches | MunchiesTests/ViewModels/RestaurantViewModelTests.swift:142-154 | filter-1 keeps all three fixture restaurants |
| RestaurantListScenarios.TwoFiltersMatch | MunchiesTests/ViewModels/RestaurantViewModelTests.swift:156-172 | filter-1 and filter-2 keep rest-1 and rest-2, in that order |
| RestaurantListScenarios.ThreeFiltersMatch | MunchiesTests/ViewModels/RestaurantViewModelTests.swift:174-189 | all three filters keep rest-1 alone |
| RestaurantListScenarios.SortExample | MunchiesTests/ViewModels/RestaurantViewModelTests.swift:69-85 | Zebra, Apple, Banana sort to Zebra, Banana, Apple |
| RestaurantListScenarios.LoadSuccessScenario | MunchiesTests/ViewModels/RestaurantViewModelTests.swift:37-52 | after a successful load: 3 restaurants, 3 filters, not loading, no error |
| RestaurantListScenarios.LoadFailureScenario | MunchiesTests/ViewModels/RestaurantViewModelTests.swift:54-67 | after a failed first load: no restaurants, not loading, and the message names the error |
| RestaurantListScenarios.SortScenario | MunchiesTests/ViewModels/RestaurantViewModelTests.swift:69-85 | the loaded filters' names are Zebra, Banana, Apple |
| RestaurantListScenarios.ToggleAddsScenario | MunchiesTests/ViewModels/RestaurantViewModelTests.swift:89-99 | one toggle selects the id and the selection has one element |
| RestaurantListScenarios.ToggleRemovesScenario | MunchiesTests/ViewModels/RestaurantViewModelTests.swift:101-112 | a second toggle deselects it and the selection is empty |
| RestaurantListScenarios.ClearScenario | MunchiesTests/ViewModels/RestaurantViewModelTests.swift:114-125 | clearing after three selections leaves none |
| RestaurantListScenarios.NoSelectionScenario | MunchiesTests/ViewModels/RestaurantViewModelTests.swift:129-140 | with nothing selected all 3 restaurants show |
| RestaurantListScenarios.OneFilterScenario | MunchiesTests/ViewModels/RestaurantViewModelTests.swift:142-154 | with filter-1 selected all 3 restaurants show |
| RestaurantListScenarios.TwoFiltersScenario | MunchiesTests/ViewModels/RestaurantViewModelTests.swift:156-172 | with filter-1 and filter-2 selected, rest-1 and rest-2 show and rest-3 does not |
| RestaurantListScenarios.ThreeFiltersScenario | MunchiesTests/ViewModels/RestaurantViewModelTests.swift:174-189 | with all three selected only rest-1 shows |
| RestaurantDetail.RestaurantDetailViewModel.constructor | MunchiesTests/ViewModels/RestaurantDetailViewModelTests.swift:17-24 | no status, loading, no error, and the given restaurant id |
| RestaurantDetail.RestaurantDetailViewModel.LoadRestaurantStatus | MunchiesTests/ViewModels/RestaurantDetailViewModelTests.swift:34-108 | the status is asked for the screen's restaurant id; on success `isOpen` is the reported flag and the error is cleared; on any failure `isOpen` is reset and the message is "Unable to load restaurant status"; loading ends either way |
| RestaurantDetailScenarios.MockStatus | MunchiesTests/Mocks/MockNetworkService.swift:74-87 | the mock succeeds exactly when it is not told to throw and has a status, and then answers with that status |
| RestaurantDetailScenarios.InitialStateScenario | MunchiesTests/ViewModels/RestaurantDetailViewModelTests.swift:112-117 | a new screen has no status, is loading and has no error |
| RestaurantDetailScenarios.OpenScenario | MunchiesTests/ViewModels/RestaurantDetailViewModelTests.swift:34-48 | an open status gives `isOpen` true, not loading, no error |
| RestaurantDetailScenarios.RequestedIdScenario | MunchiesTests/ViewModels/RestaurantDetailViewModelTests.swift:43-44 | a fetcher that answers only for the screen's id is answered |
| RestaurantDetailScenarios.ClosedScenario | MunchiesTests/ViewModels/RestaurantDetailViewModelTests.swift:50-62 | a closed status gives `isOpen` false, not loading, no error |
| RestaurantDetailScenarios.FailureScenario | MunchiesTests/ViewModels/RestaurantDetailViewModelTests.swift:64-79 | a failed fetch gives no status, not loading, and the fixed message |
| RestaurantDetailScenarios.LoadingStateScenario | MunchiesTests/ViewModels/RestaurantDetailViewModelTests.swift:81-92 | loading before the load, not loading after it |
| RestaurantDetailScenarios.RetryScenario | MunchiesTests/ViewModels/RestaurantDetailViewModelTests.swift:94-108 | a successful retry after a failure clears the error and sets `isOpen` |

## Left out

- Views, layout, fonts, images, navigation and accessibility: presentation only. The eleven hex colours are modelled: the two literals in the card view and the nine palette colours.
- Network, JSON decoding and the concurrent filter fan-out in `NetworkService`: the fetchers are parameters returning a `Result`, and an error is represented by its description string.
- `async`/`await` and `@MainActor`: each load runs to completion in one call, so the loading flag is observed only before and after it.
- `Restaurant.rating`, its "%.1f" formatting and the division of each channel by 255 into a `Double`: floating point. `Argb` holds the integer channels before that division.
- `Filter.imageURL` and `Restaurant.imageURL` are plain strings, not validated URLs.
- `Models.TagSeparator` is " • ": a space, U+2022 BULLET and a space, the separator that `MunchiesTests/Models/RestaurantTests.swift` lines 57 and 73 expect. `Munchies/Models/Restaurant.swift` line 32 shows the separator as " â€¢ ", which is how the UTF-8 bytes of " • " read in Windows-1252. With that literal as shown, the line would hold no '•'.
- `Color.init(hex:)` trimming is defined by ASCII letters and digits. `CharacterSet.alphanumerics` also contains non-ASCII letters and digits, and `count` counts grapheme clusters, not characters.
- `ScanHex`: `Scanner.scanHexInt64` also accepts an optional "0x" prefix and saturates on 64-bit overflow; neither is modelled. Only trimmed lengths 3, 6 and 8 use the value, and 8 hex digits cannot overflow.
- `SortByNameDescending`: Swift's `sorted(by:)` is not stable, so filters with equal names may come out in either order. The model uses an insertion sort. `SortedNamesDetermined` proves that the sequence of names shown is the same for every descending arrangement.
- `Text.LexLess`: Swift orders `String` values by Unicode canonical ordering of their grapheme clusters. The model compares characters by code point, which agrees for the ASCII names in the fixtures.
- `Models.MatchingFilters`, `RestaurantList.CarriesAll` and `RestaurantList.AllFilterIds`: Swift compares filter ids with `==` up to Unicode canonical equivalence, in `filterIds.contains`, in `isSubset(of:)` and in the `Set` of requested ids. The model compares ids code point by code point. An id written with a precomposed "é" and the same id written decomposed therefore match in the app but not in the model. The ids in the fixtures are ASCII, where the two agree.
- `Text.NatToString` and `Text.IntToString` use unbounded integers. The 64-bit `Int` range of `deliveryTimeMinutes` is not modelled, and no label arithmetic can overflow inside it.
- Which fetch the mocks report as called (`fetchRestaurantsCalled` and the like) is test bookkeeping. The scenarios instead state which id the fetcher is asked for and which outcome the view model sees.
- `RestaurantViewModel.init` and `RestaurantDetailViewModel.init` store fetchers. Those are the method parameters here.
