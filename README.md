# rawdog, modelled in Dafny

rawdog is an RSS aggregator. On each run it does three things:

1. It reads a configuration file that lists feeds and settings.
2. It brings its saved feed state into line with that file, fetches the feeds that are due, and merges their entries into a store of articles keyed by a hash of their content.
3. It expires old articles and writes the newest ones through a template into one HTML page.

A second module, the feed scanner, finds the feeds that an HTML page links to.

This project models that core and proves properties of the model.
- **State.** The aggregator's state is one `Rawdog` class. Its fields are `feeds`, a map from URL to `Feed`, and `articles`, a map from hash to `Article`. Its methods update those maps in the order the source does.
- **Pure parts.** Configuration parsing, the template filler, the merge rule, the expiry walk, output selection and candidate ranking are functions, and lemmas state what they promise.
- **Loops.** Every loop in the source that builds a result or changes state step by step is a method with a `while` loop, and its `ensures` ties the result to the function that specifies it. Three loops that only compute a value are recursive functions instead. They are the run of leading 301 responses (`Feeds.LeadingRedirects`, rawdoglib/rawdog.py:525-526), the unit-suffix search of `parse_time` (`Config.ParseTime`, rawdoglib/rawdog.py:793-795), and the list of scored details in `select_detail`, which `Render.Best` folds straight into the best candidate that the sort would put last (rawdoglib/rawdog.py:178-193).

Modules:
- `Text`: whitespace, splitting, case and integer helpers with Python's meaning.
- `Sorting`: lexicographic tuple keys and a stable insertion sort, standing in for Python's tuple order and `list.sort`.
- `Seqs`: subsequences and distinctness.
- `Config`: `Config.parse_time`, `parse_bool`, `parse_feed_args`, `load`, `load_line`, and `ChangeFeedEditor.edit`.
- `Templates`: `fill_template`.
- `Render`: `encode_references`, `select_detail`, and the `DayWriter` class.
- `Feeds`: `Feed` and `Article`, and the classification of a fetch result from `Feed.update`.
- `Merge`: the merge of fetched entries into the article store.
- `Expiry`: `do_expiry`.
- `Output`: the selection and de-duplication done by `write` and `write_remove_dups`.
- `Aggregator`: the `Rawdog` class (`change_feed_url`, `sync_from_config`, `update`, `write`) and `FeedFetcher`.
- `FeedScanner`: the `FeedFinder` class and `feeds` from `feedscanner.py`.

Outside effects become parameters, bundled in an `Env` value or passed as function arguments. The hash function, `calendar.timegm`, the URI check, fetching, `urljoin` and `is_feed` are handled this way, and the clock reading is a `now` parameter.

Two behaviours of the code worth noting:
- **Redirects.** A permanent redirect that has a missing or invalid location, or whose target is already subscribed, only prints a message. It does not end the update, and the feed's entries are still merged.
- **Status test.** The check `last_status / 100 != 2` uses true division, so every status other than 200 counts as an error.

## Model

| member | source | states |
|---|---|---|
| Text.Strip | rawdoglib/rawdog.py:801 | the stripped string neither starts nor ends with whitespace |
| Text.StripInfix | rawdoglib/rawdog.py:801 | the stripped string is a slice of the input with only whitespace before it and after it |
| Text.StripSurrounded | rawdoglib/rawdog.py:801 | text that neither starts nor ends with whitespace, with any whitespace around it, strips to exactly that text |
| Text.SplitWsBlank | rawdoglib/rawdog.py:911 | `split()` gives no words, and `split(None, 1)` no parts, exactly when the string is all whitespace |
| Text.SplitWsFirstWord | rawdoglib/rawdog.py:911 | after any leading whitespace, the first word of `split()` is the whitespace-free run that follows, and the other words are the words of the rest |
| Text.SplitWsAppend | rawdoglib/rawdog.py:911 | two pieces that meet at whitespace split into the words of the first followed by the words of the second |
| Text.SplitWsStrip | rawdoglib/rawdog.py:962 | stripping a line before splitting it does not change its words |
| Text.SplitWsOnceParts | rawdoglib/rawdog.py:899 | `split(None, 1)` of leading whitespace, a word, whitespace and a rest gives the word and the rest with its trailing whitespace kept, and just the word when nothing follows it |
| Text.SplitWsOnceRest | rawdoglib/rawdog.py:899 | when `split()` finds two words or more, `split(None, 1)` gives the first word and a remainder whose `split()` is the other words |
| Text.SplitJoin | rawdoglib/rawdog.py:911 | splitting words joined by single spaces gives the words back |
| Text.SplitOnce | rawdoglib/rawdog.py:817 | `split("=", 1)`: the whole string when there is no `=`, otherwise a head without `=`, the `=`, and the rest |
| Text.Lower | rawdoglib/rawdog.py:801 | lowers each character and keeps the length |
| Text.Find | rawdoglib/rawdog.py:964 | returns the first position at which the pattern occurs, or None when it occurs nowhere |
| Text.ReplaceFirst | rawdoglib/rawdog.py:964 | `replace(old, new, 1)`: unchanged when the pattern does not occur, otherwise the first occurrence is replaced |
| Text.ParseIntOfIntToString | rawdoglib/rawdog.py:927 | `int()` reads back every integer written in decimal |
| Sorting.TupleLessTotal | rawdoglib/rawdog.py:1456-1459 | the tuple order used for sort keys is total on distinct keys |
| Sorting.TupleLessTransitive | rawdoglib/rawdog.py:1456-1459 | the tuple order is transitive |
| Sorting.SortBy | rawdoglib/rawdog.py:1459 | the sorted list is a permutation of the input and is ordered by the key |
| Sorting.StrictSortedUnique | rawdoglib/rawdog.py:1459 | two strictly ordered lists with the same elements and length are equal, so sorting by a key that is unique gives one answer |
| Config.ParseTimeWithUnit | rawdoglib/rawdog.py:782-797 | a number followed by s, m, h, d or w is that many seconds, minutes, hours, days or weeks in seconds |
| Config.ParseTime | rawdoglib/rawdog.py:782-797 | the definition: a trailing unit letter picks its multiplier, otherwise the default unit does, and the number before it is read by `int()`, with no result where `int()` raises |
| Config.ParseTimeBare | rawdoglib/rawdog.py:782-797 | a bare number is counted in the default unit |
| Config.ParseTimeRejects | rawdoglib/rawdog.py:793-797 | a number part that `int()` refuses makes the value rejected, where the source raises ValueError, whether a unit letter follows it or not |
| Config.ParseBool | rawdoglib/rawdog.py:799-807 | after strip and lower: exactly 0 or false give false, exactly 1 or true give true, and every other value is an error |
| Config.ArgParam | rawdoglib/rawdog.py:817-820 | a `name=value` parameter splits at its first `=` and is refused exactly when it has no `=` |
| Config.Pairs | rawdoglib/rawdog.py:816-825 | splitting every item either fails or gives one pair per item |
| Config.PairsFirstBad | rawdoglib/rawdog.py:816-825 | parsing stops with the first item that does not split, and that item is the error |
| Config.PairsSucceed | rawdoglib/rawdog.py:816-825 | parsing succeeds exactly when every item splits, and the pairs are the items' splits in order |
| Config.Overlay | rawdoglib/rawdog.py:815-825 | the argument map has exactly the names that some pair gives |
| Config.OverlayLastWins | rawdoglib/rawdog.py:816-825 | a later pair with the same name overrides an earlier one |
| Config.ConvertArg | rawdoglib/rawdog.py:826-832 | allowduplicates is read as a boolean, keepmin as an integer and maxage as a time; every other argument stays a string; a conversion error is an error |
| Config.ConvertArgs | rawdoglib/rawdog.py:826-833 | conversion fails exactly when some argument's value is bad; otherwise it keeps the names and converts each value |
| Config.ParseFeedArgs | rawdoglib/rawdog.py:813-833 | the loops compute the feed-argument specification |
| Config.AddPairs | rawdoglib/rawdog.py:816-825 | the loop either fails exactly as the pair parser does or adds its pairs to the map |
| Config.ConvertAll | rawdoglib/rawdog.py:826-832 | the conversion loop computes the conversion specification |
| Config.BadParamRejected | rawdoglib/rawdog.py:818-819 | a parameter without `=` makes the whole argument list fail |
| Config.BadArgLineRejected | rawdoglib/rawdog.py:823-824 | an argument line that is not two words makes the whole list fail |
| Config.ArgLineOverridesParam | rawdoglib/rawdog.py:821-825 | the last argument line beats an inline parameter of the same name |
| Config.ParseValue | rawdoglib/rawdog.py:924-949 | a parsed setting value always has the kind its setting requires |
| Config.Assign | rawdoglib/rawdog.py:924-949 | assigning a setting leaves the feed list, the feed defaults and the defines alone |
| Config.GetFits | rawdoglib/rawdog.py:835-857 | every setting always holds a value of its kind |
| Config.AssignGet | rawdoglib/rawdog.py:865-866 | reading a setting after it is assigned gives the value assigned |
| Config.AssignKeepsOthers | rawdoglib/rawdog.py:865-866 | assigning one setting keeps every other setting |
| Config.Directive | rawdoglib/rawdog.py:909-951 | a directive adds at most one feed, and only the `feed` directive adds one |
| Config.LoadLine | rawdoglib/rawdog.py:896-954 | a successful line adds at most one feed; argument lines are accepted only after `feed` or `feeddefaults` |
| Config.LoadFeedLine | rawdoglib/rawdog.py:910-915 | a `feed` line whose words are `feed PERIOD URL params`, however they are spaced, appends the URL, the period in seconds and the parsed arguments to the feed list and changes no other setting |
| Config.ShortFeedLine | rawdoglib/rawdog.py:911-913 | a `feed` line with fewer than two words after it is a bad line |
| Config.BareFeedDefaults | rawdoglib/rawdog.py:899-918 | a bare `feeddefaults` sets the defaults from its argument lines alone |
| Config.UnknownDirective | rawdoglib/rawdog.py:950-951 | an unknown command is refused with its name |
| Config.StrayArgLines | rawdoglib/rawdog.py:953-954 | argument lines after any other directive are refused |
| Config.LoadSetting | rawdoglib/rawdog.py:924-949 | a setting line with a good value assigns exactly that setting and nothing else |
| Config.GroupsOf | rawdoglib/rawdog.py:873-885 | grouping fails only with the "first line is an argument" error |
| Config.GroupLines | rawdoglib/rawdog.py:873-885 | the reading loop computes the grouping specification |
| Config.PrefixFailure | rawdoglib/rawdog.py:881-882 | once grouping fails on a prefix of the file, it fails on the whole file |
| Config.GroupsOfKept | rawdoglib/rawdog.py:876-885 | after blank and comment lines are dropped, grouping fails exactly when the first kept line is indented; otherwise the groups hold each kept line, stripped, in file order |
| Config.LoadGroups | rawdoglib/rawdog.py:890-894 | loading the groups in order only appends to the feed list, at most one feed per group |
| Config.EditConfig | rawdoglib/rawdog.py:960-965 | the editor writes one output line per input line, each edited by the line rule |
| Config.CopyLines | rawdoglib/rawdog.py:960-965 | the copy loop applies the edit to each line in order |
| Config.EditKeepsOtherLines | rawdoglib/rawdog.py:962-963 | a line that is not a `feed` line for the old URL is copied unchanged |
| Config.FieldWords | rawdoglib/rawdog.py:962 | a line made of a head that ends in whitespace, a URL, and a tail that starts with whitespace has as words the head's words, the URL, then the tail's words |
| Config.EditFeedLine | rawdoglib/rawdog.py:962-964 | a `feed` line whose third word is the old URL, with any whitespace before, between and after its words and no earlier occurrence of the old URL, gets the new URL in place of the old and keeps every other character; its words are then the old ones with the third replaced |
| Templates.FillTemplate | rawdoglib/rawdog.py:249-279 | the loop over template parts computes the fill specification |
| Templates.FillFromAppend | rawdoglib/rawdog.py:261-276 | filling a template part list is a left fold, so it can be split at any point |
| Templates.PlainText | rawdoglib/rawdog.py:257-276 | text without markers is written exactly when no enclosing condition is false, and the condition stack is kept |
| Templates.MarkerFreeUnchanged | rawdoglib/rawdog.py:249-279 | a template without markers expands to itself |
| Templates.StepIf | rawdoglib/rawdog.py:264-266 | `__if_x__` pushes whether x is a non-empty bit |
| Templates.StepEndif | rawdoglib/rawdog.py:267-269 | `__endif__` pops a condition, and does nothing when the stack is empty |
| Templates.StepElse | rawdoglib/rawdog.py:270-272 | `__else__` negates the innermost condition, and does nothing when the stack is empty |
| Templates.IfEndif | rawdoglib/rawdog.py:264-269 | an if block expands to its body exactly when the bit is set and non-empty |
| Templates.IfElseEndif | rawdoglib/rawdog.py:264-272 | an if/else block expands to exactly one of its two branches |
| Templates.ElseEndif | rawdoglib/rawdog.py:267-272 | after a single open condition, `else ... endif` closes it and writes or suppresses the branch |
| Templates.StrayCloseIgnored | rawdoglib/rawdog.py:267-272 | a stray endif or else outside any block changes nothing |
| Templates.KeyExpansion | rawdoglib/rawdog.py:273-274 | `__x__` writes the bit x when it exists and output is on, and writes nothing for a missing bit |
| Templates.Suppressed | rawdoglib/rawdog.py:257-259 | inside a false condition nothing is written until the block closes |
| Render.EncodeChar | rawdoglib/rawdog.py:96-99 | an ASCII character is kept; any other becomes an ASCII `&#N;` reference |
| Render.EncodeReferences | rawdoglib/rawdog.py:93-100 | the encoded string is ASCII, no shorter than the input, and unchanged when the input is ASCII |
| Render.EncodeAppend | rawdoglib/rawdog.py:100 | encoding works character by character, so it distributes over concatenation |
| Render.EncodeIdempotent | rawdoglib/rawdog.py:93-100 | encoding an encoded string changes nothing |
| Render.DecodeEncode | rawdoglib/rawdog.py:93-100 | decoding numeric references inverts the encoding for text without `&` |
| Render.TypeScore | rawdoglib/rawdog.py:167-186 | text/html, application/xhtml+xml and text/plain score 30, 20 and 10; every other type scores 0 |
| Render.Best | rawdoglib/rawdog.py:178-194 | picks a candidate with the highest score, and none exactly when no detail has a type and a non-empty value |
| Render.Tied | rawdoglib/rawdog.py:189 | reports exactly when two different candidates share a score, where the Python sort compares the dictionaries |
| Render.SelectDetail | rawdoglib/rawdog.py:165-194 | fails exactly on such a tie; otherwise returns nothing when there are no candidates and else a highest-scoring candidate from the list |
| Render.SelectDetailUnique | rawdoglib/rawdog.py:189-194 | without a tie, the result is the one candidate with the highest score |
| Render.DayWriter.constructor | rawdoglib/rawdog.py:730-734 | a writer starts with no open sections, no last time and no output |
| Render.DayWriter.Close | rawdoglib/rawdog.py:765-768 | closes sections until at most n are open, one close tag each; the output stays well nested |
| Render.DayWriter.Open | rawdoglib/rawdog.py:736-746 | opening a section adds one open tag and one to the counter |
| Render.DayWriter.Time | rawdoglib/rawdog.py:748-763 | an unconvertible time changes nothing; a new day opens a day section after closing all; a new second (a change in `tm[:6]`) opens a time section inside the day; the last time is recorded |
| Render.DayWriter.DayPhase | rawdoglib/rawdog.py:754-756 | the day step writes exactly the day-section output |
| Render.DayWriter.TimePhase | rawdoglib/rawdog.py:757-762 | the time step writes exactly the time-section output |
| Render.DaySection | rawdoglib/rawdog.py:736-756 | a new day closes every open section and leaves exactly one open |
| Render.TimeSection | rawdoglib/rawdog.py:742-762 | a new time keeps the day section open when day sections are on, and otherwise closes everything first |
| Render.NewDayOpensBoth | rawdoglib/rawdog.py:754-762 | a new day is also a new time, and leaves a day and a time section open |
| Render.ClosedBalanced | rawdoglib/rawdog.py:765-768 | `close(0)` leaves the output with every div closed |
| Render.WellNestedPrefixes | rawdoglib/rawdog.py:765-768 | no prefix of the writer's output closes more divs than it opened |
| Feeds.NewFeed | rawdoglib/rawdog.py:391-398 | a new feed has the URL, a 30-minute period, no args, no etag or modified, and was never updated |
| Feeds.JustUpdatedNotDue | rawdoglib/rawdog.py:418-421 | a feed just updated is not due again until its period has passed, and is due once it has |
| Feeds.NeedsUpdate | rawdoglib/rawdog.py:418-421 | the definition: a feed is due once at least its period has passed since its last update |
| Feeds.CanExpire | rawdoglib/rawdog.py:718-719 | the definition: an article can expire once more than `expireage` seconds have passed since it was last seen |
| Feeds.NumArg | rawdoglib/rawdog.py:664-665 | a numeric feed argument (keepmin, or maxage as read at line 1345) is the feed's own value when it has one and the configured value otherwise |
| Feeds.ParsedTime | rawdoglib/rawdog.py:676-680 | the date is taken from updated, then published, then created |
| Feeds.ArticleDate | rawdoglib/rawdog.py:681-685 | an article has no date without a parsed time or when the conversion overflows |
| Feeds.HashText | rawdoglib/rawdog.py:691-709 | the hashed text starts with the feed URL |
| Feeds.MakeArticle | rawdoglib/rawdog.py:670-689 | a new article records its feed, entry and sequence, and was added and last seen now |
| Feeds.HashIgnoresIdAndTimes | rawdoglib/rawdog.py:691-709 | the hash depends only on the feed, title, link, contents and summary, not on the id, the time or the sequence |
| Feeds.MissingFieldsHashEmpty | rawdoglib/rawdog.py:697-707 | an entry without any hashed field hashes the feed URL alone |
| Feeds.UpdateFrom | rawdoglib/rawdog.py:711-716 | an update takes the new entry, sequence and date, is seen now, and keeps the feed, the hash and the added time |
| Feeds.SortDate | rawdoglib/rawdog.py:721-725 | articles sort by their added time unless feed dates are asked for and the article has a non-zero date |
| Feeds.LastStatus | rawdoglib/rawdog.py:502-511 | the last HTTP status; 200 for non-HTTP content; 0 for a timeout or an empty response |
| Feeds.OnlyOkPasses | rawdoglib/rawdog.py:568 | with true division, every status except 200 is an error |
| Feeds.Classify | rawdoglib/rawdog.py:550-590 | timeout, then fetch error, then 304, then 403/410, then any other non-200 status, then data that is not a feed, in that order of precedence; data is not a feed exactly when a clean 200 response has no version and no entries, and the response is usable exactly when it is a clean 200 with a version or with entries |
| Feeds.LeadingRedirects | rawdoglib/rawdog.py:524-526 | counts the run of 301 responses at the start |
| Feeds.RedirectOf | rawdoglib/rawdog.py:522-547 | a leading run of 301s moves the feed to the last hop's location when it is a valid absolute URI; otherwise a missing or invalid location is reported |
| Feeds.LastHopWins | rawdoglib/rawdog.py:524-527 | in a chain of 301 responses only the last hop's location matters |
| Merge.EntryHash | rawdoglib/rawdog.py:687-709 | an entry's hash does not depend on the time or sequence it is read at |
| Merge.MergeOne | rawdoglib/rawdog.py:614-630 | merging one entry touches exactly its target key |
| Merge.MergeAll | rawdoglib/rawdog.py:614-630 | merging never loses an article |
| Merge.MergeKeys | rawdoglib/rawdog.py:614-630 | the merged store holds the old keys plus every entry's target |
| Merge.MergeUntouched | rawdoglib/rawdog.py:627-630 | an article no entry targets is kept as it was |
| Merge.MergeKeepsIdentity | rawdoglib/rawdog.py:711-716 | a matched article keeps its feed, hash and added time; a new one belongs to this feed, is stored under its hash and is added and seen now |
| Merge.LastTouchUpdates | rawdoglib/rawdog.py:620-628 | an existing article matched by id or hash ends with the last matching entry's contents, sequence and date |
| Merge.FreshEntryStored | rawdoglib/rawdog.py:622-630 | an entry that matches nothing is stored under its own hash as a new article with its position as sequence |
| Merge.SeenHashes | rawdoglib/rawdog.py:616 | every fetched entry's hash is recorded as seen |
| Merge.KeepCurrentKeeps | rawdoglib/rawdog.py:632-635 | with currentonly, an article survives exactly when it belongs to another feed or was seen in this fetch |
| Merge.KeepCurrent | rawdoglib/rawdog.py:632-635 | the definition: with `currentonly`, the articles of the fetched feed whose hashes this fetch did not see are deleted, and every other article stays |
| Merge.MatchedByIdThenDropped | rawdoglib/rawdog.py:619-635 | an article matched by id whose hash is not among the fetched hashes is dropped by currentonly |
| Merge.FreshEntrySurvives | rawdoglib/rawdog.py:630-635 | a newly stored entry survives the currentonly pass |
| Merge.KeyedThroughMerge | rawdoglib/rawdog.py:614-635 | merging and pruning keep every article stored under its own hash |
| Merge.IndexIds | rawdoglib/rawdog.py:605-610 | the index maps the ids of this feed's articles to articles that have those ids |
| Merge.MergeEntries | rawdoglib/rawdog.py:612-630 | the entry loop computes the merge specification and the set of seen hashes |
| Merge.DropUnseen | rawdoglib/rawdog.py:632-635 | the pruning loop computes the currentonly specification |
| Expiry.ExpireStep | rawdoglib/rawdog.py:1161-1174 | one step keeps the set of counted feeds |
| Expiry.ExpireWalk | rawdoglib/rawdog.py:1160-1174 | the walk only deletes articles and never changes one |
| Expiry.UnregisteredRemoved | rawdoglib/rawdog.py:1163-1167 | every article of a feed that is no longer registered is removed |
| Expiry.RemovedOnlyIf | rawdoglib/rawdog.py:1163-1174 | an article removed by the walk was in the store, and belongs to an unregistered feed or was old enough to expire |
| Expiry.UnseenFeedKeepsAll | rawdoglib/rawdog.py:1168 | a registered feed that yielded no items this run loses no article |
| Expiry.KeepMinFloor | rawdoglib/rawdog.py:1168-1174 | a registered feed keeps at least its keepmin articles, or all it had if it had fewer |
| Expiry.CountFeeds | rawdoglib/rawdog.py:1153-1156 | the counting loop gives each feed's number of articles |
| Expiry.ExpiryOrder | rawdoglib/rawdog.py:1152-1158 | the expiry list holds every article's key exactly once, ordered by added time, then sequence, then key |
| Expiry.ExpiryOrderUnique | rawdoglib/rawdog.py:1152-1158 | the walk order is determined: any two lists of every key once, ascending by (added, sequence, key), are equal |
| Expiry.RunWalk | rawdoglib/rawdog.py:1160-1174 | the deletion loop computes the walk specification |
| Expiry.DoExpiry | rawdoglib/rawdog.py:1143-1177 | expiry walks the store oldest first and returns the surviving articles and the number removed |
| Aggregator.RetargetProperties | rawdoglib/rawdog.py:1068-1070 | renaming a feed moves exactly its articles to the new URL and changes nothing else about them |
| Aggregator.RetargetLeavesNone | rawdoglib/rawdog.py:1068-1070 | after the rename no article points at the old URL |
| Aggregator.FeedOptions | rawdoglib/rawdog.py:1100-1102 | a feed's options are the defaults overridden by its own arguments |
| Aggregator.SyncAllKeys | rawdoglib/rawdog.py:1089-1095 | after the first pass every declared feed exists and no feed is lost |
| Aggregator.SyncStepSets | rawdoglib/rawdog.py:1091-1106 | one declaration sets its feed's period and options, keeps an existing feed's URL, and leaves other feeds alone |
| Aggregator.SyncLastWins | rawdoglib/rawdog.py:1089-1106 | the last declaration of a URL decides its period and options |
| Aggregator.SyncAllKeyed | rawdoglib/rawdog.py:1089-1106 | the first pass keeps every feed stored under its own URL |
| Aggregator.SyncAllInSync | rawdoglib/rawdog.py:1096-1106 | a state already matching the declarations is left unchanged, with no modifications counted |
| Aggregator.SyncResultProperties | rawdoglib/rawdog.py:1084-1116 | after sync the feeds are exactly the declared ones; the articles of removed feeds are gone and every other article is kept |
| Aggregator.SyncResult | rawdoglib/rawdog.py:1084-1116 | the definition: the declarations applied in order, then the undeclared feeds and their articles removed, with one modification per change |
| Aggregator.SyncInSyncUnchanged | rawdoglib/rawdog.py:1084-1116 | syncing a state that already matches changes nothing and counts no modification |
| Aggregator.SyncResultKeyed | rawdoglib/rawdog.py:1084-1116 | sync keeps feeds keyed by URL and articles keyed by hash |
| Aggregator.SyncIdempotent | rawdoglib/rawdog.py:1084-1116 | syncing twice with the same declarations equals syncing once, and the second pass counts no modification |
| Aggregator.Stamped | rawdoglib/rawdog.py:517 | the update records the time on the updated feed alone |
| Aggregator.NewUrl | rawdoglib/rawdog.py:522-547 | the feed keeps its URL unless a valid permanent redirect points at a URL not yet subscribed |
| Aggregator.RedirectFailuresKeepUrl | rawdoglib/rawdog.py:539-543 | a redirect without a usable location does not move the feed |
| Aggregator.Moved | rawdoglib/rawdog.py:1064-1066 | moving the feed replaces its key and leaves the other feeds alone |
| Aggregator.UpdatedFeeds | rawdoglib/rawdog.py:517-602 | after an update the feed sits at its current URL, stamped now, and every other feed is untouched |
| Aggregator.FalseBeforeMerge | rawdoglib/rawdog.py:550-598 | an update merges exactly when there was no timeout or error, the status is 200 and there are entries |
| Aggregator.NumWorkers | rawdoglib/rawdog.py:996-998 | exactly the smaller of the job count and the setting raised to one: no more than either, and equal to one of them (so no workers without jobs) |
| Aggregator.Drain | rawdoglib/rawdog.py:977-994 | the workers fetch every job exactly once and record each result under its URL |
| Aggregator.SyncFeeds | rawdoglib/rawdog.py:1088-1106 | the declaration loop computes the first sync pass and the set of declared URLs |
| Aggregator.SyncDecl | rawdoglib/rawdog.py:1090-1106 | one turn of the loop computes one declaration's step |
| Aggregator.PruneFeeds | rawdoglib/rawdog.py:1107-1116 | the removal loop keeps the declared feeds, drops the others' articles and counts one modification per removed feed |
| Aggregator.WithoutFeed | rawdoglib/rawdog.py:1111-1113 | the inner loop deletes exactly the removed feed's articles |
| Aggregator.Rawdog.constructor | rawdoglib/rawdog.py:1022-1025 | a new aggregator has no feeds and no articles |
| Aggregator.Rawdog.ChangeFeedUrl | rawdoglib/rawdog.py:1049-1072 | refuses when the new URL is already subscribed; otherwise re-keys the feed under the new URL and moves its articles |
| Aggregator.Rawdog.UpdateFeed | rawdoglib/rawdog.py:494-637 | stamps the feed, follows a valid redirect, and merges the entries exactly when the response is usable; the result is true exactly then |
| Aggregator.Rawdog.FollowRedirect | rawdoglib/rawdog.py:517-548 | the redirect stage stamps the feed and moves it and its articles to its new URL when one applies |
| Aggregator.Rawdog.MergeFetch | rawdoglib/rawdog.py:600-635 | the merge stage stores the etag, modified and feed info and merges the entries by the merge rule |
| Aggregator.TurnKeeps | rawdoglib/rawdog.py:603-635 | one feed's update keeps every article's key, hash and time added, moving those of the feed to its new URL; only articles of the feed being merged into can go |
| Aggregator.ExpiryKeeps | rawdoglib/rawdog.py:1168-1174 | expiry keeps, unchanged, every article of a registered feed outside `seen_some_items` |
| Aggregator.CycleKeeps | rawdoglib/rawdog.py:1179-1191 | across the update loop and expiry, every article of a feed that was not due, or whose fetch stopped before the merge, keeps its key, hash and time added and belongs to the feed under its current URL |
| Aggregator.Rawdog.Update | rawdoglib/rawdog.py:1118-1192 | updates exactly the due feeds (or the one named, whose etag and modified are first cleared), each once and in some order, and leaves the others untouched; turn by turn, each update stamps its feed, moves it to the URL a valid permanent redirect leads to when that URL is free, stores the fetch's etag, modified and feed information when the fetch gets as far as the merge, and does the same to the articles (moved, then merged); the feeds and the articles before expiry are the last of those turns; each due feed ends distinct from the others and in `seen_some_items` exactly when it merged entries; expiry then walks that store; a feed that was not due, or whose fetch was an error, a 304 or empty, loses no article |
| Aggregator.Rawdog.UpdateFeeds | rawdoglib/rawdog.py:1125-1189 | the part of `update` before expiry: the due feeds, one fetch result per due feed, the selection that clears the named feed's validators, and the feeds and articles as the updates of the due feeds, one after another, make them, as in `update` |
| Aggregator.Rawdog.Expire | rawdoglib/rawdog.py:1191-1192 | the articles become what the expiry walk leaves, the feeds are unchanged, and one modification is counted |
| Aggregator.Rawdog.SelectDue | rawdoglib/rawdog.py:1125-1134 | the due feeds are those whose period has passed, or only the named feed, or none for an unknown name; the feeds become `Selected`, which clears the named feed's etag and modified and changes nothing else |
| Aggregator.Selected | rawdoglib/rawdog.py:1129-1132 | naming a registered feed clears its etag and modified and changes no other field and no other feed; otherwise the feeds are unchanged |
| Aggregator.Rawdog.UpdateDue | rawdoglib/rawdog.py:1179-1189 | updates each due feed once, in some order; the feeds and the articles are what those updates, one after another, make of them, each turn following `Feed.update` (stamp, move where a valid redirect leads, validators and feed information on a merge); each due feed ends distinct from the other due feeds and from the feeds not due, and in `seen_some_items` exactly when it merged; feeds not due stay as they were; no article of a feed that was not due, or that did not merge, is lost |
| Aggregator.TraceStep | rawdoglib/rawdog.py:1179-1189 | one more turn of the loop extends the record of the cycle by the feed it updated: its URL, its current URL, and the articles that update made of the previous ones |
| Aggregator.FeedTraceStep | rawdoglib/rawdog.py:1179-1189 | one more turn of the loop extends the record of the feeds by the feed it updated: the feed map that update made of the previous one, with the URL `NewUrl` gives at that point |
| Aggregator.Rawdog.UpdateStep | rawdoglib/rawdog.py:1183-1189 | one update moves the feed to its current URL and stamps it, stores the fetch's validators and feed information when it merges, leaves the other feeds alone, moves and merges the articles as one feed update does, and remembers the current URL exactly when it merged entries |
| Aggregator.Rawdog.SyncFromConfig | rawdoglib/rawdog.py:1084-1116 | the state becomes the sync result, with one modification per change |
| Aggregator.Rawdog.Write | rawdoglib/rawdog.py:1450-1475 | lists all articles, sorts, truncates and looks them up, then removes old articles and duplicates |
| Output.SliceTo | rawdoglib/rawdog.py:1462 | Python's `[:n]` is a prefix of length min(n, len) for n >= 0, and drops the last -n elements for negative n |
| Output.Ranked | rawdoglib/rawdog.py:1455-1463 | a prefix of the sorted articles: all of them when maxarticles is 0, otherwise as many as the slice gives |
| Output.LookUp | rawdoglib/rawdog.py:1467-1471 | the lookup keeps only articles found in the store |
| Output.LookUpFindsAll | rawdoglib/rawdog.py:1467-1471 | when every article is in the store under its hash, the lookup returns the list unchanged |
| Output.SelectionOrdered | rawdoglib/rawdog.py:1455-1471 | the selected articles come from the store, newest first, strictly ordered by (date, feed, sequence, hash) |
| Output.TruncationKeepsNewest | rawdoglib/rawdog.py:1459-1462 | an article cut by maxarticles is no newer than any article kept |
| Output.SelectionIndependentOfOrder | rawdoglib/rawdog.py:1456-1459 | the selection is the same whatever order the store is enumerated in |
| Output.ListValues | rawdoglib/rawdog.py:1456 | the listing holds each stored article once |
| Output.Select | rawdoglib/rawdog.py:1455-1471 | the loops compute the ranked lookup, and numarticles is the store's size |
| Output.LookUpAll | rawdoglib/rawdog.py:1467-1471 | the lookup loop computes the lookup specification over the ranked list |
| Output.Guid | rawdoglib/rawdog.py:1355-1357 | an empty id counts as no id |
| Output.DedupSubsequence | rawdoglib/rawdog.py:1341-1369 | the kept articles are the input in order with some removed, and each is young enough |
| Output.DedupAccounting | rawdoglib/rawdog.py:1343-1369 | each input article is kept, counted as a duplicate, or too old |
| Output.DedupGuidsDistinct | rawdoglib/rawdog.py:1359-1367 | among kept articles of feeds that forbid duplicates, no two share a guid, and the seen set is exactly their guids |
| Output.UncheckedKept | rawdoglib/rawdog.py:1359-1369 | a young article of a feed that allows duplicates, or one without a guid, is always kept |
| Output.RepeatDropped | rawdoglib/rawdog.py:1361-1367 | a checked article is dropped and counted exactly when its guid was seen before |
| Output.RemoveDups | rawdoglib/rawdog.py:1334-1370 | the loop computes the kept list and the duplicate count of the specification |
| FeedScanner.Attr | rawdoglib/feedscanner.py:66-67 | an attribute's value comes from the tag, and there is none when the tag lacks it |
| FeedScanner.SearchFrom | rawdoglib/feedscanner.py:73 | the search finds a feed word exactly when one occurs at or after the start |
| FeedScanner.MentionsFeed | rawdoglib/feedscanner.py:73 | the href matches the pattern exactly when rss, atom, rdf, feed or feeds occurs as a whole word, in any case |
| FeedScanner.Scored | rawdoglib/feedscanner.py:65-74 | a tag yields at most one candidate; none without an href; 10 for an alternate link that is not text/html; 20 for an anchor that mentions a feed |
| FeedScanner.UrlsOf | rawdoglib/feedscanner.py:63 | takes each candidate's URL in order |
| FeedScanner.Ranking | rawdoglib/feedscanner.py:62-63 | the ranking lists every candidate's URL once |
| FeedScanner.RankingOrder | rawdoglib/feedscanner.py:62-63 | the sorted candidates are a permutation, by quality and then by discovery order |
| FeedScanner.OfQuality | rawdoglib/feedscanner.py:63 | the candidates of one quality, in discovery order |
| FeedScanner.RankingIsLinksThenAnchors | rawdoglib/feedscanner.py:62-74 | the ranking is the alternate links in page order, then the anchors in page order |
| FeedScanner.LinksThenAnchorsStrict | rawdoglib/feedscanner.py:62-63 | links then anchors is strictly ordered by the candidate key |
| FeedScanner.DiscoveredSubseq | rawdoglib/feedscanner.py:57-60 | candidates picked in order keep increasing discovery counts |
| FeedScanner.QualitiesCount | rawdoglib/feedscanner.py:65-74 | every candidate is a link or an anchor |
| FeedScanner.FeedFinder.constructor | rawdoglib/feedscanner.py:51-55 | a finder starts with no candidates and a zero count |
| FeedScanner.FeedFinder.Add | rawdoglib/feedscanner.py:57-60 | adds the joined URL with the quality and the current count, and advances the count |
| FeedScanner.FeedFinder.Urls | rawdoglib/feedscanner.py:62-63 | lists one URL per candidate |
| FeedScanner.FeedFinder.HandleStarttag | rawdoglib/feedscanner.py:65-74 | appends exactly the candidates that the tag's score gives, numbered from the current count |
| FeedScanner.Added | rawdoglib/feedscanner.py:57-60 | new candidates are numbered consecutively from the count and their URLs are joined to the base |
| FeedScanner.FoundIn | rawdoglib/feedscanner.py:65-74 | the candidates of a page are numbered in discovery order and are all links or anchors |
| FeedScanner.NoHrefNoCandidate | rawdoglib/feedscanner.py:67-69 | a tag without an href adds nothing |
| FeedScanner.KeepFeeds | rawdoglib/feedscanner.py:86-87 | keeps exactly the URLs that are feeds, in order |
| FeedScanner.Feeds | rawdoglib/feedscanner.py:76-87 | returns the ranked candidates and then the page itself, keeping only feeds |

## Left out

- Fetching, feedparser, reading and writing files, locking, state persistence and printing are I/O that happens outside the model. A fetch result is the `Fetched` value, and a config file is a list of lines.
- Threads: `FeedFetcher` is modelled by `NumWorkers` and by one worker draining the job set (`Drain`). How jobs interleave between threads is not modelled.
- HTML sanitising, `detail_to_html`, `write_output_file`, `article_dates` and the page bits are not modelled. They are rendering built on libraries outside the core.
- Splitting a template with `template_re` is not modelled. `FillTemplate` takes the parts the split yields.
- Tokenising in HTMLParser and `HTMLParseError` are not modelled. The scanner takes the parsed start tags, and a page that fails to parse has fewer tags.
- `urljoin`, `is_feed`, SHA-1, `calendar.timegm`, `time.localtime` with `strftime`, and `urlparse` are parameters (`join`, `isFeed`, and the `Env` functions). The clock is the `now` argument, in whole seconds.
- Regular expressions and case folding are ASCII only. feedscanner.py works on Python 2 byte strings, where that is exact. `int()` accepts ASCII digits only.
- The text of ConfigError and ValueError messages is not kept. Each error is a constructor of `ConfigError`, and "Bad value in config" is `BadValue`.
- The immediate `load_file` of a `*template` directive is not modelled, because it is file I/O. No branch of `load_line` then handles those names, so the source raises "Unknown config command" and the model gives `UnknownCommand`.
- Dict iteration order is not fixed. `KeysOf`, `ListValues` and the due-feed loop work for any order; the loop records the order it took as `visit`. `SelectionIndependentOfOrder` shows that the output does not depend on it. When two articles of a feed share an id, the id index keeps one of them, whichever was visited last.
- Object identity is not modelled: feeds and articles are values in maps. The Persistable `modified()` flag is the counter `modifications`.
- Feeds.NumArg: a keepmin or maxage argument that is not a number is not modelled. The parser converts these names to numbers.
- Aggregator.Rawdog.Write: requires every article's feed to be registered. The source raises KeyError only for an article that survives the sort, the `maxarticles` cut and the lookup and whose feed is not registered (rawdoglib/rawdog.py:1342, 1462); that error path is not modelled.
- Config.EditFeedLine: a line where the old URL also occurs before the URL column is not covered. There `replace(old, new, 1)` rewrites the earlier occurrence, and `EditLine` does the same through `ReplaceFirst`.
- Aggregator.CycleKeeps and Aggregator.Rawdog.Update: "keeps its articles" means the key, hash, time added and feed. Another feed's merge may still update such an article's entry, sequence and date when one of its entries has the same hash (rawdoglib/rawdog.py:622-628).
- Output.RemoveDups: the `seen_links` set and the link normalisation in `write_remove_dups` are not modelled. They are computed but never read.
- Expiry.DoExpiry: the first counting loop in `do_expiry` is not modelled, because the second loop overwrites its result. That the walk removes the oldest articles first is stated as the order of the walk, not as a lemma about which articles survive.
- Render.SelectDetail: a tie between two different details is a `Failure`. In Python it raises TypeError while sorting the dictionaries.
