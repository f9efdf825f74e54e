# Comment Mail: replies via email, notices, options and conflict detection

This project is a Dafny model of the deterministic core of the Comment Mail
WordPress plugin. It covers three parts.

- **The Mandrill inbound webhook listener** (`RveMandrill.dfy`, module `Mandrill`).
  - A webhook call is authorised when replies via email are enabled,
    Mandrill is the selected handler, and the trimmed caller key equals the
    expected key.
  - The `mandrill_events` parameter is then decoded into events.
  - Each event is filtered: it needs a recent timestamp, the `inbound` kind
    and a `msg` object. Its fields are extracted with their defaults.
  - Each reply is gated: it needs a reply-to address and a non-empty body,
    with rich text preferred over plain text.
  - A trust policy marks the reply as `spam` from the spam score, an SPF
    level or a DKIM level. The reply is then handed to the comment poster.
- **The plugin object** (`Plugin.dfy`, module `CommentMail`).
  - The options merge done at setup and on save, including blanking
    templates that equal their defaults.
  - The admin-notice queue: normalising, keying and storing a notice, and
    the render pass that echoes notices and removes them from the store.
  - The post-type filter for the meta box, and the screen-option filter.
- **Conflict detection** (`Conflicts.dfy`, module `ConflictCheck`).
  - The scan of active plugin basenames and its cache.
  - The guards on registering the conflict notice.
  - This plugin's name shown beside the conflicting plugin's name, with the
    Lite/Pro relabelling when the two coincide.

Shared modules:
- `PhpString.dfy` states the PHP string semantics the code relies on:
  truthiness, `trim`, ASCII `strtolower`, the PCRE classes `\W` and `\s`,
  `strpos === 0`, `strstr(…, true)` and `strval`.
- `PhpArray.dfy` models a string-keyed PHP array as an ordered list of
  entries with distinct keys, with `$a[$k] = $v`, `unset` and
  `unshift_assoc`.
- `Stub.dfy` holds the `GLOBAL_NS` constant, `comment_mail`.
- `Wrappers.dfy` defines `Option`, used where a PHP value may be unset.
- `Seqs.dfy` holds the associativity of sequence concatenation, used by
  the proofs that a pass over a list splits at any point.

## How state is modelled

- Where the source changes state in place, the model is a class:
  - `RveMandrill` holds `$this->key`, `$this->events` and the posts handed
    to `maybePostComment`, recorded in order.
  - `Plugin` holds `$this->options`, the `<ns>_options` option as it last
    wrote it (`None` before the first write) and the `<ns>_notices` option.
  - `Conflicts` holds the `$GLOBALS` entries that the static PHP class
    reads and writes. It also records the `deactivate_plugins` hooks and
    the notice hooks it registers.
- Every loop of the source is a `while` loop proved against a
  specification function: the recursive `Replies`, `Survivors`/`Shown` and
  `Scan`, and, for the options-save loop over a map, the map comprehension
  `BlankDefaultTemplates`.
- Everything the code obtains from WordPress, PHP or code outside this model
  is passed in as a parameter. This covers:
  - the JSON decoder, the HTML converters and the expected HMAC key;
  - the current time and the notice-key signature;
  - the capability checks, the current user and the current-page test;
  - the contents of the default templates.

Definitions that model a source function and carry no contract of their
own; their properties are the lemma rows of "## Model" that name them.

- `Mandrill` (source `src/includes/classes/RveMandrill.php`):
  - `Authorized`: the three early returns of `maybeProcess`, lines 80-93.
  - `Admissible`: the timestamp, kind and message guards, lines 127-135.
  - `EventReply`: one iteration of `processEvents`, lines 127-185.
  - `SpfForcesSpam`: the SPF levels, lines 251-259.
  - `DkimForcesSpam`: the DKIM levels, lines 260-264.
  - `ProcessReply`: `maybeProcessCommentReply`, lines 197-278.
- `CommentMail` (source `src/includes/classes/Plugin.php`):
  - `SetupOptions`: the options merge of `setup`, lines 650-661.
  - `MergeOptions`: `options_quick_save`, lines 956-958.
  - `BlankDefaultTemplates`: the template pass of `options_save`, lines 976-985.
  - `CapabilityName`: the `requires_cap` normalisation, lines 1935-1937.
  - `NormalizeNotice`: the argument normalisation of `enqueue_notice`, lines 1917-1949.
  - `Enqueued`: the keyed store of `enqueue_notice`, lines 1950-1958.
  - `ReadBack`: the re-normalisation in `all_admin_notices`, lines 2057-2075.
  - `Visible`: the four visibility filters, lines 2080-2090.
  - `Removed`: the two `unset` calls, lines 2077-2128.
  - `SplitFrom` and `PostTypeList`: `preg_split` of a post-type list, lines 1013-1014.
  - `AddsMetaBox`: `add_meta_boxes`, lines 1007-1029.
  - `ScreenOption`: `set_screen_option`, lines 1322-1328.
- `ConflictCheck` (source `src/includes/classes/Conflicts.php`):
  - `Dashed`: `str_replace('_', '-', …)`, line 35.
  - `ConflictingSlugs`: the slug list of `doCheck`, lines 34-36.
  - `Scan`: the `foreach` of `doCheck`, lines 41-57.
  - `StripEdition`: the edition-suffix `preg_replace`, line 79.
  - `ConstructName`: the `$construct_name` closure, lines 77-84.

## Model

| member | source | states |
|---|---|---|
| `Mandrill.CollectedEvents` | src/includes/classes/RveMandrill.php:100-115 | a missing, non-string, falsy or undecodable `mandrill_events` parameter yields no events |
| `Mandrill.Extract` | src/includes/classes/RveMandrill.php:136-165 | each message property is passed through when set and takes its default (`''`, `0.0`, `'none'`, `false`) when unset; a set SPF result is lower-cased |
| `Mandrill.Coalesce` | src/includes/classes/RveMandrill.php:245 | the chosen body is truthy iff one of the two is; the rich-text body wins when truthy, else the text body |
| `Mandrill.ProcessReplyGates` | src/includes/classes/RveMandrill.php:239-247 | a reply is posted exactly when the trimmed reply-to address is truthy and one of the converted bodies is truthy |
| `Mandrill.ProcessReplyFields` | src/includes/classes/RveMandrill.php:220-276 | a post carries the trimmed address, names and subject, and the rich-text body unless that is empty, then the text body |
| `Mandrill.ProcessReplyForceStatus` | src/includes/classes/RveMandrill.php:237-264 | `force_status` is `null` or `'spam'`, and `'spam'` exactly when the score, SPF or DKIM check fires |
| `Mandrill.Replies` | src/includes/classes/RveMandrill.php:122-188 | at most one post per event |
| `Mandrill.RepliesAppend` | src/includes/classes/RveMandrill.php:124-186 | the events of a batch are processed independently and in order: the posts of a concatenation are the concatenated posts |
| `Mandrill.SkippedEventIsInvisible` | src/includes/classes/RveMandrill.php:127-135 | an event the guards or gates reject does not change the posts made for the others |
| `Mandrill.RepliesWellFormed` | src/includes/classes/RveMandrill.php:239-276 | every post has a truthy reply-to address, a truthy body and a forced status that is absent or `spam` |
| `Mandrill.RepliesComeFromAdmissibleEvents` | src/includes/classes/RveMandrill.php:127-185 | every post comes from an event of the batch with a recent timestamp, the `inbound` kind and a message |
| `Mandrill.RepliesOfOne` | src/includes/classes/RveMandrill.php:124-186 | a single event yields its own post or nothing |
| `Mandrill.EventSkippedIff` | src/includes/classes/RveMandrill.php:127-247 | an event yields no post iff a filter rejects it, its trimmed reply-to address is falsy, or both converted bodies are falsy |
| `Mandrill.StaleBoundary` | src/includes/classes/RveMandrill.php:127 | an event exactly 604800 seconds old is kept and one a second older is dropped |
| `Mandrill.MalformedBatchPostsNothing` | src/includes/classes/RveMandrill.php:104-113 | a malformed `mandrill_events` parameter leads to zero posts |
| `Mandrill.SpamScoreForcesSpam` | src/includes/classes/RveMandrill.php:248-250 | a spam score at or above the maximum forces `spam` whatever SPF and DKIM say |
| `Mandrill.SpfLevelsNest` | src/includes/classes/RveMandrill.php:251-259 | SPF levels 1 to 4 accept strictly fewer results: each level rejects what the level before it rejects, plus one more result; levels outside 1-4 reject none |
| `Mandrill.SpfErrorsAlwaysForceSpam` | src/includes/classes/RveMandrill.php:252-255 | `fail`, `temperror` and `permerror` force `spam` at every level 1-4 |
| `Mandrill.DkimLevels` | src/includes/classes/RveMandrill.php:260-264 | DKIM level 1 rejects only a signed and invalid message; level 2 rejects anything not validly signed; other levels are off |
| `Mandrill.RveMandrill.constructor` | src/includes/classes/RveMandrill.php:41-50 | the key is the trimmed caller key; events are collected only when authorised; the posts are those of the collected events |
| `Mandrill.RveMandrill.MaybeProcess` | src/includes/classes/RveMandrill.php:80-93 | when the enable flag, the handler or the key check fails, nothing is collected or posted; otherwise events are collected and processed |
| `Mandrill.RveMandrill.CollectEvents` | src/includes/classes/RveMandrill.php:100-115 | the events field becomes the collected events |
| `Mandrill.RveMandrill.ProcessEvents` | src/includes/classes/RveMandrill.php:122-188 | the loop with its `continue` guards appends exactly the posts of the events, in order |
| `Mandrill.RveMandrill.MaybeProcessCommentReply` | src/includes/classes/RveMandrill.php:197-278 | posts the reply built by the pipeline, or nothing |
| `PhpString.TrimLeftSpec` | src/includes/classes/RveMandrill.php:45 | `ltrim` keeps a suffix and drops exactly the leading run of trim characters |
| `PhpString.TrimRightSpec` | src/includes/classes/RveMandrill.php:45 | `rtrim` keeps a prefix and drops exactly the trailing run of trim characters |
| `PhpString.TrimEnds` | src/includes/classes/RveMandrill.php:220-232 | a trimmed string neither starts nor ends with a trim character |
| `PhpString.TrimIdempotent` | src/includes/classes/Plugin.php:2060 | trimming a trimmed value changes nothing |
| `PhpString.TrimNoop` | src/includes/classes/Plugin.php:2060 | a string without trim characters at its ends is its own trim |
| `PhpString.TrimOfBlankIsFalsy` | src/includes/classes/Plugin.php:1917-1918 | whitespace-only markup trims to `''` |
| `PhpString.ToLowerSpec` | src/includes/classes/Plugin.php:1937 | `strtolower` keeps the length and lower-cases each character where it stands |
| `PhpString.ToLowerIdempotent` | src/includes/classes/Plugin.php:2063-2064 | lower-casing twice is lower-casing once |
| `PhpString.ReplaceNonWordSpec` | src/includes/classes/Plugin.php:1935-1937 | every non-word character becomes `_` where it stands, word characters stay |
| `PhpString.StripSpace` | src/includes/classes/Plugin.php:980-981 | removing `\s+` leaves no whitespace character and never lengthens |
| `PhpString.StripSpaceAppend` | src/includes/classes/Plugin.php:980-983 | whitespace removal distributes over concatenation |
| `PhpString.StripSpaceIgnoresSpace` | src/includes/classes/Plugin.php:980-983 | a whitespace-only string compares as empty |
| `PhpString.StripSpaceOne` | src/includes/classes/Plugin.php:980-981 | a single character is dropped when it is whitespace and kept otherwise |
| `PhpString.StripSpaceKeepsNonSpace` | src/includes/classes/Plugin.php:980-981 | a string without whitespace is kept whole |
| `PhpString.IndexOf` | src/includes/classes/Conflicts.php:42 | the first occurrence of the character, if any |
| `PhpString.Before` | src/includes/classes/Conflicts.php:42 | `strstr(…, '/', true)` is set iff `/` occurs, and is then the part before the first `/` |
| `PhpString.NatString` | src/includes/classes/Plugin.php:655 | decimal digits with no leading zero, whose value is the number cast |
| `PhpString.StrvalKeepsTruthiness` | src/includes/classes/Plugin.php:655-660 | casting a boolean, an integer or a null option to a string keeps its truthiness |
| `PhpArray.PutSpec` | src/includes/classes/Plugin.php:1958 | `$a[$k] = $v` sets `k`, keeps every other key, overwrites in place or appends, and keeps keys distinct |
| `PhpArray.UnsetSpec` | src/includes/classes/Plugin.php:2077-2078 | `unset` removes `k`, keeps every other key, leaves an array without `k` unchanged, and keeps keys distinct |
| `PhpArray.UnshiftAssocSpec` | src/includes/classes/Plugin.php:1956-1957 | the entry for `k` becomes the first, the rest is the array without `k` in its old order, and keys stay distinct |
| `PhpArray.UnsetHead` | src/includes/classes/Plugin.php:1956-1957 | unsetting the key of the first entry drops that entry |
| `PhpArray.PutTwice` | src/includes/classes/Plugin.php:1958 | storing the same key and value twice is storing it once |
| `PhpArray.UnshiftAssocTwice` | src/includes/classes/Plugin.php:1956-1957 | pushing the same entry to the front twice is pushing it once |
| `PhpArray.LookupAppend` | src/includes/classes/Plugin.php:2044 | a key is read from the first part of an array that has it |
| `PhpArray.UnsetAppend` | src/includes/classes/Plugin.php:2077-2078 | `unset` distributes over concatenation |
| `PhpArray.DistinctSplit` | src/includes/classes/Plugin.php:2044 | the parts of a PHP array are PHP arrays, and a key set in one part is set in no other |
| `CommentMail.MergeOptionsSpec` | src/includes/classes/Plugin.php:956-958 | the merged options equal `array_map('strval', array_intersect_key(array_merge($defaults, $current, $incoming), $defaults))` computed call by call |
| `CommentMail.MergeOptionsIdempotent` | src/includes/classes/Plugin.php:956-958 | saving the same values again changes nothing |
| `CommentMail.MergeNothingIsIdentity` | src/includes/classes/Plugin.php:956-958 | a quick save of no new values leaves well-formed options as they were |
| `CommentMail.SetupOptionsSpec` | src/includes/classes/Plugin.php:650-661 | setup keeps exactly the default keys, takes stored values over defaults, and forces `all_wp_users_confirm_email` to `'0'` unless `auto_confirm_force_enable` is truthy |
| `CommentMail.BlankDefaultTemplatesSpec` | src/includes/classes/Plugin.php:976-985 | a template equal to its default file ignoring whitespace is blanked, a customised template is kept as it is, other options are untouched, no key is added or lost |
| `CommentMail.ReformattedDefaultIsBlanked` | src/includes/classes/Plugin.php:979-985 | a default template padded with whitespace still counts as the default and is blanked |
| `CommentMail.BlankDefaultTemplatesIdempotent` | src/includes/classes/Plugin.php:976-985 | blanking the templates of saved options changes nothing |
| `CommentMail.CapabilityNameFormat` | src/includes/classes/Plugin.php:1935-1937 | a required capability is `''` or a truthy string of lower-case word characters |
| `CommentMail.CapabilityNameIdempotent` | src/includes/classes/Plugin.php:2060-2064 | normalising a stored capability again leaves it unchanged |
| `CommentMail.ReadBackStored` | src/includes/classes/Plugin.php:2057-2075 | a notice stored by `enqueue_notice` is read back by `all_admin_notices` exactly as it was stored |
| `CommentMail.EnqueuedStoresNotice` | src/includes/classes/Plugin.php:1915-1961 | a notice with markup is stored under its key and reads back unchanged; other keys are untouched; `push_to_top` puts it first, otherwise a new key is appended |
| `CommentMail.EnqueueBlankIsNoop` | src/includes/classes/Plugin.php:1917-1918 | markup that is falsy after trimming (`''` or `'0'`) leaves the store unchanged |
| `CommentMail.EnqueueWhitespaceIsNoop` | src/includes/classes/Plugin.php:1917-1918 | whitespace-only markup leaves the store unchanged |
| `CommentMail.EnqueueTwiceIsOnce` | src/includes/classes/Plugin.php:1950-1958 | enqueueing identical arguments twice is enqueueing them once |
| `CommentMail.NoticeTypes` | src/includes/classes/Plugin.php:1947-2003 | the type is `notice`, `error` or `warning`, an unknown type becomes `notice`, and `enqueue_error`/`enqueue_warning` force theirs |
| `CommentMail.Survivors` | src/includes/classes/Plugin.php:2044-2129 | the render pass never grows the store |
| `CommentMail.SurvivorsAppend` | src/includes/classes/Plugin.php:2044-2129 | the entries remaining after the render pass are decided entry by entry |
| `CommentMail.ShownAppend` | src/includes/classes/Plugin.php:2044-2126 | the notices echoed are decided entry by entry, in store order |
| `CommentMail.SurvivorsMembers` | src/includes/classes/Plugin.php:2077-2128 | an entry remains exactly when it is neither transient nor (visible to this viewer and not persistent) |
| `CommentMail.SurvivorsKeys` | src/includes/classes/Plugin.php:2077-2078 | a key that remains was in the store before |
| `CommentMail.SurvivorsDistinct` | src/includes/classes/Plugin.php:2132 | the store written back is still a PHP array |
| `CommentMail.KeyOnlyAt` | src/includes/classes/Plugin.php:2044 | the key an iteration visits occurs nowhere else in the array |
| `CommentMail.UnsetVisited` | src/includes/classes/Plugin.php:2077-2078 | midway through the loop, unsetting the visited key removes exactly the visited entry, and unsetting it again changes nothing |
| `CommentMail.RenderLast` | src/includes/classes/Plugin.php:2044-2129 | one more iteration keeps or removes one more entry and echoes it or not |
| `CommentMail.RenderOne` | src/includes/classes/Plugin.php:2044-2129 | the render pass over one entry keeps it or not and echoes it or not |
| `CommentMail.SplitFromSpec` | src/includes/classes/Plugin.php:1014-1020 | `preg_split('/[\s;,]+/', …, NO_EMPTY)` yields non-empty, separator-free tokens that spell the input without separators |
| `CommentMail.SplitFromWhole` | src/includes/classes/Plugin.php:1014-1020 | a separator-free stretch is one token: no token ends inside it |
| `CommentMail.SplitFromSeparator` | src/includes/classes/Plugin.php:1014-1020 | every separator ends the current token: the split of `a`, separator, `b` is the split of `a` then that of `b` |
| `CommentMail.MetaBoxExcludedWins` | src/includes/classes/Plugin.php:1016-1023 | a type in the excluded list never gets the box, whatever the enabled list says |
| `CommentMail.MetaBoxEnabledListMisses` | src/includes/classes/Plugin.php:1013-1017 | a non-empty enabled list that does not name the lower-cased type denies the box |
| `CommentMail.MetaBoxDecision` | src/includes/classes/Plugin.php:1007-1029 | the box is added iff the user holds one of the two capabilities, the page is not `post-new.php`, the enabled list is empty or names the type, and the excluded list does not |
| `CommentMail.MetaBoxIgnoresCase` | src/includes/classes/Plugin.php:1011 | lower-casing the post type first does not change the decision |
| `CommentMail.MetaBoxNeverOnPostNew` | src/includes/classes/Plugin.php:1007-1029 | no box on `post-new.php`, and none for a user with neither capability |
| `CommentMail.MetaBoxEmptyListsAdmitAll` | src/includes/classes/Plugin.php:1007-1029 | with both lists empty, a capable user gets the box for every type outside `post-new.php` |
| `CommentMail.MetaBoxMatchesWholeTokens` | src/includes/classes/Plugin.php:1013-1017 | a single listed type admits only itself, not a part of it |
| `CommentMail.PostTypeListTokens` | src/includes/classes/Plugin.php:1013-1014 | the lower-cased type list splits into non-empty tokens without separators |
| `CommentMail.PostTypeListOfTwo` | src/includes/classes/Plugin.php:1013-1014 | two types with one separator between them split into exactly those two |
| `CommentMail.SeparatedTypeNeverEnabled` | src/includes/classes/Plugin.php:1013-1017 | a post type containing a separator is never admitted by a non-empty enabled list |
| `CommentMail.ScreenOptionOwnership` | src/includes/classes/Plugin.php:1322-1328 | for every option: one named `<ns>_<name>` is saved with the chosen value, and any other keeps WordPress's answer |
| `CommentMail.ScreenOptionSavesOwnOptions` | src/includes/classes/Plugin.php:1322-1328 | the four `per_page` screen options the plugin registers are saved with the chosen value; options of WordPress or of other plugins keep WordPress's answer, even one that merely contains the namespace |
| `CommentMail.Plugin.Setup` | src/includes/classes/Plugin.php:650-661 | the options become the setup merge of the stored value, nothing has been written yet, and the object is well formed |
| `CommentMail.Plugin.OptionsQuickSave` | src/includes/classes/Plugin.php:954-961 | options become the merge of the incoming values and are written |
| `CommentMail.Plugin.OptionsSave` | src/includes/classes/Plugin.php:970-990 | the loop over the option keys blanks exactly the templates equal to their defaults, then the options are written |
| `CommentMail.Plugin.BlankTemplatePass` | src/includes/classes/Plugin.php:976-985 | the loop over the option keys keeps the keys and blanks exactly the templates equal, ignoring whitespace, to their defaults |
| `CommentMail.Plugin.EnqueueNotice` | src/includes/classes/Plugin.php:1915-1961 | the notice store becomes the enqueued store |
| `CommentMail.Plugin.EnqueueUserNotice` | src/includes/classes/Plugin.php:1971-1977 | the notice is addressed to the current user unless a user is given |
| `CommentMail.Plugin.EnqueueError` | src/includes/classes/Plugin.php:1987-1990 | the notice is stored with type `error` |
| `CommentMail.Plugin.EnqueueWarning` | src/includes/classes/Plugin.php:2000-2003 | the notice is stored with type `warning` |
| `CommentMail.Plugin.EnqueueUserError` | src/includes/classes/Plugin.php:2013-2019 | an error addressed to the current user unless a user is given |
| `CommentMail.Plugin.AllAdminNotices` | src/includes/classes/Plugin.php:2028-2133 | a disabled plugin first queues its warning; then exactly the surviving entries remain, exactly the displayable notices are echoed, and the store is written iff it changed |
| `CommentMail.Plugin.RenderEntry` | src/includes/classes/Plugin.php:2046-2128 | one iteration unsets the visited entry exactly when the removal rule says so and echoes it exactly when displayable |
| `CommentMail.Plugin.RenderNotices` | src/includes/classes/Plugin.php:2037-2132 | the loop leaves the surviving entries, echoes the displayable notices in order, and reports whether the store changed |
| `ConflictCheck.DedupAfter` | src/includes/classes/Conflicts.php:39 | the values kept are those not already seen, each once |
| `ConflictCheck.DedupAfterOne` | src/includes/classes/Conflicts.php:39 | a single value is kept exactly when it was not seen before |
| `ConflictCheck.DedupAfterAppend` | src/includes/classes/Conflicts.php:39 | `array_unique` keeps first occurrences in input order: it splits over concatenation |
| `ConflictCheck.ActiveBasenames` | src/includes/classes/Conflicts.php:37-39 | the scanned basenames are the site's plus, on a multisite, the network's, without repeats |
| `ConflictCheck.ActiveBasenamesOrder` | src/includes/classes/Conflicts.php:37-39 | the scan order is the site's plugins in their order, then the network-wide ones the site lacks, in theirs |
| `ConflictCheck.DashedSpec` | src/includes/classes/Conflicts.php:35 | no `_` survives, the length is kept, and every other character is kept |
| `ConflictCheck.DashedIdempotent` | src/includes/classes/Conflicts.php:35 | replacing underscores again changes nothing |
| `ConflictCheck.DashedNamespace` | src/includes/classes/Conflicts.php:35 | the namespace `comment_mail` gives the slug `comment-mail` |
| `ConflictCheck.SlugOf` | src/includes/classes/Conflicts.php:42-44 | a slug is read only from a basename with a `/` whose prefix is truthy, and is that prefix |
| `ConflictCheck.ScanAppend` | src/includes/classes/Conflicts.php:41-56 | after a prefix without a conflict the scan continues, keeping the prefix's deactivations |
| `ConflictCheck.ScanStep` | src/includes/classes/Conflicts.php:41-56 | one more basename after a conflict-free prefix extends the deactivation list or, on a conflict, ends the scan with it |
| `ConflictCheck.ScanOne` | src/includes/classes/Conflicts.php:42-55 | one basename is skipped, scheduled for deactivation, or reported |
| `ConflictCheck.ScanSound` | src/includes/classes/Conflicts.php:41-57 | a reported conflict is a truthy listed slug of a scanned basename that is not the plugin's own; only the plugin's own listed slugs are deactivated |
| `ConflictCheck.ScanReportsFirstForeign` | src/includes/classes/Conflicts.php:41-54 | the reported conflict is the slug of the first basename whose truthy slug is listed and not one of the plugin's own |
| `ConflictCheck.ScanNoConflictIff` | src/includes/classes/Conflicts.php:41-57 | nothing is reported iff no basename has a listed slug outside the plugin's own |
| `ConflictCheck.ScanReportsOnlyForeignSlugs` | src/includes/classes/Conflicts.php:45-54 | with only the plugin's own slugs listed, nothing is reported |
| `ConflictCheck.NoConflictIsEverReported` | src/includes/classes/Conflicts.php:34-54 | with `GLOBAL_NS` = `comment_mail`, neither edition ever reports a conflict |
| `ConflictCheck.DropDashesSpec` | src/includes/classes/Conflicts.php:79 | only a trailing run of `_`/`-` is dropped, all of it |
| `ConflictCheck.DropDashesRun` | src/includes/classes/Conflicts.php:79 | a dash run after a stem that does not end in a dash is dropped whole |
| `ConflictCheck.StripEditionRemovesSuffix` | src/includes/classes/Conflicts.php:79 | `lite` or `pro` after a non-empty dash run is removed together with the whole run |
| `ConflictCheck.StripEditionKeepsOthers` | src/includes/classes/Conflicts.php:79 | a name ending in neither `lite` nor `pro` is unchanged |
| `ConflictCheck.SpacedSpec` | src/includes/classes/Conflicts.php:80 | each character outside `[a-z0-9]` becomes a space where it stands, the others stay |
| `ConflictCheck.UcWordsFromSpec` | src/includes/classes/Conflicts.php:81 | `ucwords` upper-cases exactly the first character and each character after a word delimiter, and changes only letter case |
| `ConflictCheck.CapitalizeMailSpec` | src/includes/classes/Conflicts.php:81 | `str_replace('mail', 'Mail', …)` capitalises the `m` of every occurrence of `mail` and changes nothing else |
| `ConflictCheck.MailAtShift` | src/includes/classes/Conflicts.php:81 | whether `mail` starts at a position does not depend on the characters before an earlier cut |
| `ConflictCheck.MailAtHead` | src/includes/classes/Conflicts.php:81 | occurrences of `mail` cannot overlap |
| `ConflictCheck.CapitalizeMailKeepsLetters` | src/includes/classes/Conflicts.php:81 | replacing `mail` by `Mail` changes only letter case |
| `ConflictCheck.UcWordsExample` | src/includes/classes/Conflicts.php:81 | `x mail` becomes `X Mail` |
| `ConflictCheck.CapitalizeMailExample` | src/includes/classes/Conflicts.php:81 | `X Mail` holds no `mail` and is left as it is |
| `ConflictCheck.ConstructNameLower` | src/includes/classes/Conflicts.php:77-84 | the display name lower-cased is the trimmed, lower-cased slug without its edition suffix, with non-`[a-z0-9]` characters as spaces |
| `ConflictCheck.ConstructNameAlphabet` | src/includes/classes/Conflicts.php:77-84 | a display name holds only ASCII letters, digits and spaces |
| `ConflictCheck.ConstructNameExample` | src/includes/classes/Conflicts.php:83 | `x-mail` becomes `X Mail` |
| `ConflictCheck.EditionSlugsShareName` | src/includes/classes/Conflicts.php:79 | `comment-mail-pro` and `comment_mail_lite` lose their edition suffix; a whole run of separators before it goes too |
| `ConflictCheck.Conflicts.constructor` | src/includes/classes/Conflicts.php:31 | the globals the class reads start unset: no cached conflict, no Lite/Pro flag, nothing registered |
| `ConflictCheck.Conflicts.DoCheck` | src/includes/classes/Conflicts.php:29-58 | a truthy cache is returned without rescanning; otherwise the scan result is cached and returned and its deactivations are registered |
| `ConflictCheck.Conflicts.MaybeEnqueueNotice` | src/includes/classes/Conflicts.php:65-73 | no notice is registered while uninstalling or without a conflict |
| `ConflictCheck.Conflicts.Check` | src/includes/classes/Conflicts.php:16-22 | returns the cached value; registers the notice only on a conflict |
| `ConflictCheck.Conflicts.RenderNotice` | src/includes/classes/Conflicts.php:73-98 | nothing after a Lite/Pro notice; names equal ignoring case become `… Pro` and `… Lite` and set the flag |

## Left out

- JSON decoding and `stripslashes` are the `Decoder` parameter. Event
  properties are taken as already cast to their PHP types, so the casts
  of arbitrary JSON values (`(string)` of an object, `(float)` of a string)
  are not modelled.
- `Mandrill.Admissible`: the timestamp is an integer. A timestamp such as
  `"0"` or a float or string that PHP compares numerically is not modelled.
- The HMAC-SHA256 key is the `expectedKey` parameter, and the notice key is
  the `sign` parameter. The AbsBase and utils classes are not part of this
  model.
- The clock is a parameter. The stale cutoff is `now - 604800`, so the
  daylight-saving shifts `strtotime('-7 days')` can make are not modelled.
- The spam score and the maximum score are `real`s. How PHP parses floats
  from strings is not modelled.
- `htmlToText`, `htmlToRichText` and `maybePostComment`.
  - The two converters are the `Converters` parameter.
  - Calls to `maybePostComment` are recorded in the `posted` field; the
    comment poster itself is not modelled.
- `coalesce` and `unshift_assoc` follow their documented behaviour. Their
  utility classes are not part of this model.
- WordPress input and output are parameters or fields; hooks are counted
  or recorded, not run. This covers:
  - `get_option` and `update_option`;
  - capability checks, `get_current_user_id` and `is_menu_page`;
  - `add_action` and `add_meta_box`.
- The `_default_options` and `_options` filters of `setup`
  (`src/includes/classes/Plugin.php` lines 649 and 654) are taken as the identity, so the options keep exactly the
  default keys. A filter that adds or removes keys is not modelled; the
  `_manage_cap` filter is left out with `manage_cap`.
- Echoed markup, `sprintf`/`__` translation and the dismiss link are not
  modelled. The conflict notice and the admin notices are returned as the
  names or `Notice` values they would show.
- `CommentMail.Plugin.EnqueueNotice` assumes the stored
  `<ns>_notices` option is an array. Replacing a non-array value by
  `array()` is not modelled; the same holds in `all_admin_notices`.
- `manage_cap` and `cap` are not modelled. Whether the viewer holds one of
  the two capabilities is `Viewer.canView`.
- Template file contents are the `defaultTemplate` parameter, and
  `template::option_key_data` is folded into it.
- `stub.php` is not part of this model. `GLOBAL_NS` is taken as
  `comment_mail`, and `IS_PRO` and `NAME` are parameters.
- Characters are Unicode code points. PCRE without the `/u` flag works on
  bytes, so a non-ASCII character counts once here, not once per byte. This
  affects `\W`, `[^a-z0-9]` and `ucwords`.
- Stored option values are taken to be strings, integers, booleans or
  null (`PhpString.Scalar`). `strval` of a stored float or of a nested
  array (`src/includes/classes/Plugin.php` line 655) is not modelled.
- `ConflictCheck.Conflicts.Check` treats `static::maybeEnqueueNotice()`
  (`src/includes/classes/Conflicts.php` line 19) as an ordinary call. In
  PHP that calls an instance method statically, an Error in PHP 8 and a
  deprecation notice in PHP 7; the model does not capture that failure.
  The call is reached only on a conflict, which `NoConflictIsEverReported`
  shows never happens.
- Integer casts of option values (`(integer)` on the SPF and DKIM levels)
  are taken as done. Integers are unbounded, since no value here comes
  near the PHP integer range.
- Concurrency between requests and deduplication of redelivered webhooks
  are not handled by the code and are not modelled.
- The rest of the plugin class (menu pages, scripts, cron, comment hooks,
  the pro updater) and the bootstrap files are outside this model.
