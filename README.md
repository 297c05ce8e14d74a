# ExtraPrimeBackup checkpoint gate, modelled in Dafny

ExtraPrimeBackup is an MCDReforged plugin. It wraps the backup command of
Prime Backup (`!!pb make`) and refuses a backup while "machines" (redstone
contraptions) are still running. The plugin keeps a flat store of named
checkpoints. Each checkpoint holds block coordinates, the block id and the
block-state map that the block shows when the machine is off.

Before a backup, the plugin probes every checkpoint:

- It clears a one-slot result buffer and sends `info block x y z` to the server.
- A console listener fills the buffer from any line that starts with
  `Block info for minecraft:<id>`.
- The listener collects every `key=value` token of that line into a map.
- The probe compares what arrived with what is stored.

This project models that logic:

- `patterns.dfy`: the two regular expressions, written as scanners over strings.
  - The header `Block info for (?P<block>minecraft:[\w_]+)` is used with `re.match`.
  - The pair pattern `(\w+|'[^']+')=(\w+|'[^']+')` is used with `re.findall`.
  - The result of `findall` is characterised independently of how it is computed. It holds exactly the matches, left to right and pairwise disjoint, and every place where the pattern matches is covered by one of them. No other list has these properties.
  - `DictOf` builds the dictionary from the matches, as the dict comprehension does: every key of the line appears, and the last value for a key wins.
- `block_info.dfy`: the probe, `BlockInfoGetter`, as a class.
  - Its fields `blockName` and `blockData` are the result slot, and `sent` records the queries sent.
  - `OnInfo` is the listener, and `GetBlockInfo` is the probe.
  - The console and the 0.4 s wait are an oracle: the sequence of console lines the listener sees between the reset and the final check.
- `checkpoints.dfy`: the checkpoint store, as a class with two fields.
  - `points` maps each name to its record.
  - `order` lists the names in the order they were inserted, because Python dicts iterate in insertion order.
  - The class has the `cp list`, `cp status`, `cp del` and `cp add` commands.
- `verification.dfy`: `check`, the walk over all checkpoints.
  - In plain mode it yields a flag (`True` = something is wrong) and the replies and broadcasts it sends.
  - In group mode it yields the comma-terminated list of machines that are on.
- `override.dfy`: `make_callback_override`, the gate around the backup callback. In the override path (`!!pb ignore [comment]`) it records the offenders in the backup comment.

The model follows the code on these points:

- The store is flat. There are no groups, dotted paths or tags.
- A probe is decided by the LAST response line that arrives during the wait. The listener overwrites the slot on every matching line; no "first match wins" rule exists. The wait also stops as soon as the block name is set (line 57). The batch of lines ends wherever that final check falls, so the early exit is covered by letting the batch be any sequence of lines.
- `cp add` looks up preset data under the literal key `'{}'`, because the command has no `json` argument. When a checkpoint named `{}` exists, the looked-up value is a dict, and `json.loads` raises on it. The model returns `Crashed` and leaves the store unchanged. Otherwise the lookup yields `{}`, and the observed data is stored.
- In `make_callback_override`, the plain check runs in both paths, even in the override path, because `check(source) and ignore` evaluates `check` first. The override path then runs a second check, in group mode. The model therefore takes one batch of console lines per probe of each check.

## Model

| member | source | states |
|---|---|---|
| Patterns.WordRunEnd | extra_prime_backup/__init__.py:22-23 | the greedy `\w+` run: every char up to the end is a word char and the next one is not |
| Patterns.NextQuote | extra_prime_backup/__init__.py:23 | the first quote at or after a position, with no quote before it: the extent of `[^']+` |
| Patterns.MatchBlockInfo | extra_prime_backup/__init__.py:22 | a capture is a `minecraft:` id of word chars; the line starts with `Block info for ` and the id, and the id is not followed by a word char |
| Patterns.MatchBlockInfoComplete | extra_prime_backup/__init__.py:47 | conversely: if the line starts with the prefix and a maximal block id, the match succeeds and captures exactly that id |
| Patterns.MatchBlockInfoRequiresPrefix | extra_prime_backup/__init__.py:47 | a line that does not start with `Block info for minecraft:` is not matched (re.match is anchored) |
| Patterns.TokenEnd | extra_prime_backup/__init__.py:23 | what it finds is a word run that cannot be extended, or a quoted string with a non-empty body and no inner quote |
| Patterns.TokenEndComplete | extra_prime_backup/__init__.py:23 | every such span is found: the match of one token side at a position is unique |
| Patterns.PairAt | extra_prime_backup/__init__.py:23 | a pair match is key token, `=`, value token; key and value are the exact substrings, quotes kept |
| Patterns.PairAtComplete | extra_prime_backup/__init__.py:23 | wherever key, `=` and value spans line up, the pair match is found with those spans |
| Patterns.MatchAtIsMatcher | extra_prime_backup/__init__.py:23 | pair matches start where they are looked for and end after that, inside the line |
| Patterns.ScanWith | extra_prime_backup/__init__.py:50 | the left-to-right scan yields only matches, in order and disjoint, covering every position where the pattern matches |
| Patterns.ScanUnique | extra_prime_backup/__init__.py:50 | any list with those three properties equals the scan's result |
| Patterns.FindingsBound | extra_prime_backup/__init__.py:50 | there are no more matches than positions left to scan |
| Patterns.FindingsSkip | extra_prime_backup/__init__.py:50 | where nothing matches at a position, the findings are those from the next position |
| Patterns.FindingsHead | extra_prime_backup/__init__.py:50 | where a match starts at the scan position, it comes first and the rest are the findings from its end |
| Patterns.FindAll | extra_prime_backup/__init__.py:50 | `findall` over the line: the matches with the properties above |
| Patterns.FindAllUnique | extra_prime_backup/__init__.py:50 | `findall` is determined by those properties |
| Patterns.DictOf | extra_prime_backup/__init__.py:50 | every key of the dictionary comes from some match, with that match's value |
| Patterns.FindAllTokens | extra_prime_backup/__init__.py:23 | every match of `findall` has a token as key and a token as value |
| Patterns.ParseData | extra_prime_backup/__init__.py:50 | the block data of a line: a dictionary whose keys and values are all tokens |
| Patterns.DictOfKeys | extra_prime_backup/__init__.py:50 | the dictionary has a key exactly when some match has that key |
| Patterns.DictOfLastWins | extra_prime_backup/__init__.py:50 | for a repeated key the value of its last match is stored |
| BlockInfo.ReadingOf | extra_prime_backup/__init__.py:47-50 | a response line yields its captured block id, which is not followed by a word char, and the dictionary of all its pairs |
| BlockInfo.Receive | extra_prime_backup/__init__.py:45-50 | user chat leaves the slot as it was; any change writes a block id into it |
| BlockInfo.ReceiveAllIgnores | extra_prime_backup/__init__.py:45-47 | user chat and non-matching lines leave the slot as it was, stale contents included |
| BlockInfo.ReceiveAllLastWins | extra_prime_backup/__init__.py:45-50 | after a run of lines, the slot holds what the last response line wrote |
| BlockInfo.ProbeFailsIff | extra_prime_backup/__init__.py:52-60 | from the cleared slot, the block name stays empty iff no response line arrived |
| BlockInfo.BlockInfoGetter.constructor | extra_prime_backup/__init__.py:39-43 | a new probe has an empty slot and has sent nothing |
| BlockInfo.BlockInfoGetter.OnInfo | extra_prime_backup/__init__.py:45-50 | a server line with the header replaces the slot with its id and pairs; any other line leaves it unchanged |
| BlockInfo.BlockInfoGetter.GetBlockInfo | extra_prime_backup/__init__.py:52-60 | exactly one query is sent; the slot is what the lines write into the cleared slot; failure iff no response line arrived, whatever the slot held before |
| CheckPoints.Classify | extra_prime_backup/__init__.py:101-105 | empty block name ⇔ unreadable; off ⇔ a response with equal block and equal whole data map; otherwise on |
| CheckPoints.VerdictOfLines | extra_prime_backup/__init__.py:101-105 | when a response arrived, off iff its last response carries the stored block and data |
| CheckPoints.VerdictOf | extra_prime_backup/__init__.py:101-105 | the verdict of one probe is unreadable iff none of its lines is a response |
| CheckPoints.Without | extra_prime_backup/__init__.py:112 | removal keeps exactly the other names |
| CheckPoints.WithoutAt | extra_prime_backup/__init__.py:112 | in an order without duplicates, deleting a name removes just its position and keeps the rest in order |
| CheckPoints.WithoutAbsent | extra_prime_backup/__init__.py:111-116 | deleting an absent name changes nothing |
| CheckPoints.RemoveAtKeepsNoDuplicates | extra_prime_backup/__init__.py:112 | cutting one position out keeps the names distinct |
| CheckPoints.RemoveKeepsIndexes | extra_prime_backup/__init__.py:112 | removing a name from both the order and the map keeps the order listing every key once |
| CheckPoints.EntriesOf | extra_prime_backup/__init__.py:92 | the i-th entry is the i-th name with its record |
| CheckPoints.CheckPointStore.constructor | extra_prime_backup/__init__.py:27 | the store starts empty |
| CheckPoints.CheckPointStore.Entries | extra_prime_backup/__init__.py:139 | the store's entries in insertion order, each with its record |
| CheckPoints.CheckPointStore.CmdList | extra_prime_backup/__init__.py:91-93 | one line per checkpoint, in insertion order, with its name and record |
| CheckPoints.CheckPointStore.CmdStatus | extra_prime_backup/__init__.py:97-107 | an unknown name is missing and sends no query; a known one sends one query for its coordinates, reports its verdict and leaves the slot as its lines write it into the cleared slot |
| CheckPoints.CheckPointStore.CmdDel | extra_prime_backup/__init__.py:110-116 | an existing name leaves the map and its one position in the order, the rest keeping their order; an absent name changes nothing |
| CheckPoints.CheckPointStore.CmdAdd | extra_prime_backup/__init__.py:120-132 | a used name is rejected before any probe; a failed probe is rejected; with a `{}` checkpoint the lookup crashes; else exactly one entry is appended with the coordinates and observed block and data; rejections change nothing |
| Verification.Verdicts | extra_prime_backup/__init__.py:139-148 | one verdict per checkpoint, in order; the per-index fact is `VerdictsAt` |
| Verification.VerdictsAt | extra_prime_backup/__init__.py:141-148 | the same, for one index |
| Verification.Queries | extra_prime_backup/__init__.py:141-142 | one query per checkpoint |
| Verification.QueriesAt | extra_prime_backup/__init__.py:141-142 | the i-th query carries the i-th checkpoint's coordinates |
| Verification.OffenderFor | extra_prime_backup/__init__.py:149-150 | one checkpoint adds text to the group list iff it is on, and that text is its name followed by a comma |
| Verification.NoticeFor | extra_prime_backup/__init__.py:143-152 | one checkpoint yields at most one notice: none iff it is off, the "not readable" reply naming it for a failed probe, the "not off" broadcast naming it for a machine that is on |
| Verification.WrongIff | extra_prime_backup/__init__.py:145-158 | the plain result is True iff some checkpoint is unreadable or on |
| Verification.OffenderListEmptyIff | extra_prime_backup/__init__.py:149-155 | the group list is empty iff no machine is on |
| Verification.OffenderListTerminated | extra_prime_backup/__init__.py:149-150 | `OffenderList`, the group list, is empty or ends in a comma |
| Verification.OffenderListOnlyOn | extra_prime_backup/__init__.py:143-150 | the group list depends only on which machines are on; unreadable ones are left out like machines that are off |
| Verification.OffendersAreProblems | extra_prime_backup/__init__.py:135-158 | a non-empty group list implies the plain mode reports a problem |
| Verification.AllOffIff | extra_prime_backup/__init__.py:135-158 | plain mode reports no problem iff every probe got a response whose last one shows the stored block and data |
| Verification.NoticesOfShape | extra_prime_backup/__init__.py:143-152 | `NoticesOf`, the plain-mode messages: at most one per checkpoint, never the turn-off request, and none iff `Wrong` is False |
| Verification.WalkStep | extra_prime_backup/__init__.py:139-153 | one more checkpoint adds one query, updates the flag, appends `name,` if on, and adds its reply or broadcast |
| Verification.Inspect | extra_prime_backup/__init__.py:141-148 | one probe sends one query for the checkpoint, yields its verdict and leaves the slot as its lines write it into the cleared slot |
| Verification.Walk | extra_prime_backup/__init__.py:139-158 | the loop over the entries: queries in order; a flag for any unreadable or on machine (plain mode) or the `name,` list of machines on (group mode); replies and broadcasts only in plain mode; afterwards the slot holds what the last batch wrote into the cleared slot, or is unchanged when there are no entries |
| Verification.Check | extra_prime_backup/__init__.py:135-158 | `check` over the store in insertion order, with the results of `Walk`, the slot left by the last probe included |
| Override.CommandContext.constructor | extra_prime_backup/__init__.py:171 | the command context holds the given arguments |
| Override.CommentOf | extra_prime_backup/__init__.py:176 | `context.get('comment', None)`: present iff the key is in the arguments, then with its value |
| Override.OverrideNoteParts | extra_prime_backup/__init__.py:177-179 | `OverrideNote` is the fixed prefix, the offender list unchanged, then the fixed suffix |
| Override.Annotated | extra_prime_backup/__init__.py:176-179 | without a comment the note alone; with one, the comment unchanged, a space, then the note |
| Override.AnnotateComment | extra_prime_backup/__init__.py:176-179 | the context's arguments change only in `comment`, which becomes the annotated comment |
| Override.MakeCallbackOverride | extra_prime_backup/__init__.py:171-182 | normal path: forwards iff the plain check finds no problem, else asks to turn machines off; override path: always forwards, with `comment` set to or extended by the note listing the machines the group check found on; the slot is left by the last probe of the last check that ran, or unchanged for an empty store |

## Left out

- Timing: `time.time`, `time.sleep`, the 0.4 s probe timeout and the 0.2 s delay between probes. Each probe takes the console lines that arrive during its wait as an input.
- Threads: the `@new_thread` decorators and the `override_checking` daemon thread. The model is sequential.
- Console lines that arrive after a probe's wait, while the caller reads the slot, are not modelled. Each probe sees exactly its own batch of lines.
- The takeover of the host's `!!pb` command node, through private fields and regex-matched function names, is not modelled. The takeover of `help_callback_override` is not modelled either. Both are internals of a foreign library.
- Command registration through `SimpleCommandBuilder`, the help text of `cmd_help`, and chat colour formatting are not modelled. Replies and broadcasts are recorded as `Notice` values, and the listing of `cmd_list` as the list of entries.
- Config load and save (`load_config_simple`, `save_config_simple`) is left out: the store is in memory. One consequence is not visible: `cmd_del` does not save, while `cmd_add` does.
- The logger calls are left out.
- The backup callback itself is left out. The gate only says whether to forward and with which arguments.
- The unused `block_info_command` template is left out.
- Python's Unicode `\w` is approximated by ASCII letters, digits and `_`.
- A non-empty preset JSON in `cmd_add` is not modelled. It is unreachable through the commands, because the looked-up key is always the literal `{}`, and a checkpoint stored under `{}` by a command holds a dict. Only a hand-edited `check_point.json` could store a JSON string there.
- A store changed by another thread while `check` iterates is not modelled. In Python, that makes the iteration raise.
- Patterns.MatchBlockInfoRequiresPrefix: states only the anchoring of the header. Whether the match succeeds after the prefix is covered by MatchBlockInfo and MatchBlockInfoComplete.
