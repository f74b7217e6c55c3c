# cyclo — a verified model of its sequential core

cyclo is firmware for a relay cycler. It opens and closes an output
contact following a small program typed on a serial console. It also
shows its state on a 128x32 OLED display and reads three keys. The
repository holds the firmware, a host simulation of the board, a
logging library and a Python resource compiler. The resource compiler
turns PNG bitmaps into C tables for the display.

This project models the parts of that code that compute or keep state
step by step, and proves what they promise:

- **Resource compiler** (`cyclo/make/rc.py`). It checks the JSON
  manifest, binarises each image and packs it into 8-row bands. It
  writes the C source and header of each output pair, with their include
  guards, and lists the make dependencies.
  Modules `RcCompiler` (the bitmap and the generated text) and
  `RcManifest` (the manifest walk and `gen_deps`).
- **Logger** (`logger_common.c`). `LoggerStrings` holds `strlcpy`,
  `log_strtok_r`, `wildcmp`, the truncation of long fields, the limits
  table and the line-end trimming of `_log_printf`. `LoggerFilters`
  holds the show and hide lists, the table of domain levels and the
  filtering decision. `LogQueue` models the threaded Linux back end's
  message queue (`logger_os_linux_thread.cpp`).
- **Relay programs**. `Tokenizer` models `etl::char_separator`.
  `CommandParser` and `ParserProperties` model the command language of
  `parser.cpp`. `ProgramModel` models `Program` and its iterator.
  `ProgramManagerModel` models the EEPROM slots of `program_manager.cpp`.
- **Console**. `Console` models the line editor of `console_server.hpp`
  and `Vt100` its terminal output helpers.
- **Small state machines and buffers**:
  - `Keypad`: the debounce and auto-repeat of `keypad.cpp`;
  - `ContactModel`: the NO/NC contact of `contact.hpp`;
  - `UiController` and `UiModel`: the UI state machines and the stored
    manual program;
  - `Quadrant`: the wrap-around counter of `ui_worker.hpp`;
  - `Ssd1306`, `SimPorts` and `Nvm`: the host simulation's display
    framebuffer, port pins and EEPROM.

`Base` holds what several modules share: an `Option` type, byte
conversion, decimal digit strings, and the splitting of a string into
tokens at delimiter characters. The splitting is common to `log_strtok_r`
and `char_separator`.

Mutable objects of the source are classes. Their methods are proved
against functions on values (`ensures a[..] == F(old(a[..]))`), and
the properties are proved as lemmas about those functions. Pure code
(the resource compiler's text generation, the command language) is
modelled as functions.

## Model

| member | source | states |
|---|---|---|
| Base.SkipDelims | template_tests/include/etl/token_functions.h:174-178 | The first position at or after `i` that is not a dropped delimiter; every character skipped over is one. |
| Base.RunEnd | template_tests/include/etl/token_functions.h:195-197 | The end of the maximal run from `i` of characters that are neither dropped nor kept: the run holds none, and it stops at one or at the end. |
| Base.Spans | template_tests/include/etl/token_functions.h:172-198 | The tokens from `i` in drop-empty-tokens mode lie inside the input, after `i`. |
| Base.SpansShape | template_tests/include/etl/token_functions.h:182-198 | Every token is non-empty and holds no dropped delimiter. A kept delimiter is a token of its own, and any other token is a maximal run free of kept delimiters. Tokens come in input order and do not overlap. |
| Base.FirstSpan | template_tests/include/etl/token_functions.h:174-198 | When something other than dropped delimiters remains, the first token starts after them, is well shaped, and is followed by the tokens from its end. |
| Base.SpansCover | template_tests/include/etl/token_functions.h:174-198 | Every character that is not a dropped delimiter belongs to some token: nothing but delimiters is lost. |
| Base.SpansOfPlainWord | template_tests/include/etl/token_functions.h:195-197 | A non-empty text with no delimiter is exactly one token. |
| Tokenizer.KeepTokens | template_tests/include/etl/token_functions.h:199-237 | The tokens of keep-empty-tokens mode lie inside the input. |
| Tokenizer.KeepTokensBounds | template_tests/include/etl/token_functions.h:231-234 | No token of keep-empty-tokens mode contains a dropped delimiter. |
| Tokenizer.KeepTokensJoin | template_tests/include/etl/token_functions.h:199-237 | In keep-empty-tokens mode with one delimiter, joining the tokens with the delimiter gives back the input. Every delimiter separates two tokens (possibly empty), and the end of the input gives one final, possibly empty, token. |
| Tokenizer.CharSeparator.Explicit | template_tests/include/etl/token_functions.h:143-152 | The explicit constructor stores the dropped delimiters and the policy, but never the kept delimiters. It uses neither `ispunct` nor `isspace`. |
| Tokenizer.CharSeparator.Default | template_tests/include/etl/token_functions.h:155-160 | The default constructor drops white space and keeps punctuation, in drop-empty-tokens mode. |
| Tokenizer.CharSeparator.Dropped | template_tests/include/etl/token_functions.h:263-273 | A character is listed as dropped exactly when `is_dropped` holds for it. |
| Tokenizer.CharSeparator.Kept | template_tests/include/etl/token_functions.h:250-261 | A character is listed as kept exactly when `is_kept` holds. With the explicit constructor no character is kept. |
| Tokenizer.CharSeparator.NextToken | template_tests/include/etl/token_functions.h:166-240 | `operator()` returns false exactly when no token remains. Otherwise it returns the first remaining token, and the tokens after it are those remaining from the new position. In drop mode it never changes the "output done" flag. |
| Tokenizer.CharSeparator.NextDropping | template_tests/include/etl/token_functions.h:172-198 | In drop mode the call finds the first token of `Spans` and moves past it, or returns false when none is left. |
| Tokenizer.CharSeparator.NextKeeping | template_tests/include/etl/token_functions.h:199-239 | In keep mode the call finds the first token of `KeepTokens` with the current flag. It either moves on or sets the flag that marks the empty token before a pending delimiter. |
| Tokenizer.CharSeparator.AllTokens | template_tests/include/etl/token_functions.h:166-240 | Calling `operator()` until it returns false yields exactly the tokens the specification lists for the whole input. |
| LoggerStrings.GetLimit | template_tests/src/logger/src/logger_common.c:724-741 | `_log_get_limit` returns -1 exactly for an identifier that is none of the ten limits, and a positive size otherwise. The masks limit is `MAX_DOMAINS * (MAX_DOMAIN_REPR + 1)`. |
| LoggerStrings.Strlcpy | template_tests/src/logger/src/logger_common.c:264-280 | Returns the length of the whole source text. The buffer holds at most `size - 1` characters of it, then a NUL when `size > 0`, and is otherwise unchanged. A size of 0 writes nothing. |
| LoggerStrings.StrlcpyReadsBack | template_tests/src/logger/src/logger_common.c:264-280 | The destination reads back as the text cut to `size - 1` characters. It reads back whole exactly when the returned length is below `size`. |
| LoggerStrings.Strtok | template_tests/src/logger/src/logger_common.c:201-254 | `log_strtok_r` starts at `s`, or at `*last` when `s` is null, and returns null when both are null. It returns the first token of the rest of the string and writes a NUL over the delimiter that ends it. `*last` then points after that delimiter, or becomes null at the end of the string. The tokens after the returned one are those found from the new `*last`. |
| LoggerStrings.SkipIn | template_tests/src/logger/src/logger_common.c:210-219 | The first loop skips the delimiters up to the first other character or the terminating NUL. |
| LoggerStrings.RunIn | template_tests/src/logger/src/logger_common.c:227-253 | The second loop stops at the first delimiter or NUL after the token's first character. |
| LoggerStrings.Wildcmp | template_tests/src/logger/src/logger_common.c:293-356 | `wildcmp` succeeds only when the pattern matches the whole string (`?` matches one character, `*` any run) and either `bestScore <= 0` or the new score beats it. On success the score is stored; on failure `bestScore` is left alone. Every match succeeds when `bestScore <= 0`. Without `*`, the score is the number of characters other than `?`. |
| LoggerStrings.MatchHead | template_tests/src/logger/src/logger_common.c:298-312 | The first loop steps over pattern and string together up to the first `*` or the end of the string. A character that does not fit means no match. |
| LoggerStrings.MatchTail | template_tests/src/logger/src/logger_common.c:314-342 | The backtracking loop keeps the invariant that a match of the rest of the pattern is a match of the whole, and the converse. It breaks only on a `*` that ends the pattern, which matches. |
| LoggerStrings.SkipStars | template_tests/src/logger/src/logger_common.c:344-347 | The trailing stars are skipped; the empty rest of the string is matched exactly when only stars were left. |
| LoggerStrings.NoStarGlob | template_tests/src/logger/src/logger_common.c:298-312 | A pattern without `*` matches exactly the strings of its length that agree with it outside the `?` positions. |
| LoggerStrings.LoneStar | template_tests/src/logger/src/logger_common.c:316-321 | The pattern `*` matches every string. |
| LoggerStrings.PrefixStar | template_tests/src/logger/src/logger_common.c:286 | A prefix followed by `*` matches every extension of the prefix (`a*` matches `a`, `ab` and `a.b`). |
| LoggerStrings.TruncatedString | template_tests/src/logger/src/logger_common.c:394-408 | A text longer than `maxLength + 1` gets the mark, and the ellipsis and the returned tail together are `maxLength` characters. Any other text is returned whole and unmarked. |
| LoggerStrings.TrimEol | template_tests/src/logger/src/logger_common.c:1149-1176 | At most two characters are removed from the end, and only when the text ends with CR or LF. |
| LoggerStrings.TrimEolCases | template_tests/src/logger/src/logger_common.c:1151-1175 | CR LF and LF CR are removed whole. Of a doubled CR or LF only the last one goes, and a text not ending in CR or LF is kept. |
| LoggerStrings.PrintedText | template_tests/src/logger/src/logger_common.c:1146-1187 | The printed text is at most `_LOG_MAX_TRACE` characters. A text that fits loses its line end. A text that does not fit keeps its head, and its last three characters become `...`. |
| LoggerStrings.PrintedTextAsWrittenCutsSilently | template_tests/src/logger/src/logger_common.c:1179-1186 | As written, a text of exactly `sizeof(_log_buffer)` characters is cut to the buffer without the ellipsis. |
| LoggerStrings.PrintedTextOnlyDiffersAtBufferSize | template_tests/src/logger/src/logger_common.c:1179-1183 | The corrected and the written tests give the same text for every length but `sizeof(_log_buffer)`. |
| LoggerFilters.Tokens | template_tests/src/logger/src/logger_common.c:1241-1265 | The tokens of a list argument are non-empty, hold no separator of `seps` and no NUL, and are shorter than the copy buffer. |
| LoggerFilters.TokensOfName | template_tests/src/logger/src/logger_common.c:1243-1244 | A single name without separators is its own, only token. |
| LoggerFilters.TokensOfJoin | template_tests/src/logger/src/logger_common.c:1243-1265 | Up to `MAX_DOMAINS` storable names joined by `:` are cut back into the same names. |
| LoggerFilters.JoinLength | template_tests/src/logger/src/logger_common.c:1290-1313 | At most `n` names of at most `cap` characters, joined by `:`, take at most `n * (cap + 1)` characters. |
| LoggerFilters.Removed | template_tests/src/logger/src/logger_common.c:1332-1363 | The corrected removal from a show or hide list keeps the list's size. |
| LoggerFilters.RemovedTakesOne | template_tests/src/logger/src/logger_common.c:1332-1363 | Removing keeps a list without holes, with its end mark free. When the name is in use, exactly one copy of it leaves the names in use. Otherwise the list is unchanged. |
| LoggerFilters.RemovedAsWrittenMisses | template_tests/src/logger/src/logger_common.c:1337-1356 | As written, a name after the first slot is never found. Removing a one-character first name frees the first slot and leaves a hole before the second. |
| LoggerFilters.Applied | template_tests/src/logger/src/logger_common.c:1238-1262 | Filling a list keeps its number of slots and leaves the end mark as it was. |
| LoggerFilters.Placed | template_tests/src/logger/src/logger_common.c:1250-1262 | The tokens that find a slot are the first `MAX_DOMAINS` of them. |
| LoggerFilters.AppliedIsList | template_tests/src/logger/src/logger_common.c:1238-1262 | After filling, the list has no holes. Its names in use are the placed tokens, in order, each cut to `_LOG_MAX_DOMAIN_REPR_LENGTH - 1` characters. |
| LoggerFilters.AppliedNames | template_tests/src/logger/src/logger_common.c:1238-1262 | Storable names fill a list as they are. |
| LoggerFilters.MaskRoundTrip | template_tests/src/logger/src/logger_common.c:1229-1321 | Setting a mask to storable names joined by `:` and joining the names in use gives back the same text. |
| LoggerFilters.CopyInto | template_tests/src/logger/src/logger_common.c:1282-1321 | `_log_copy_mask_to_string` writes as much of the text as fits in `max` characters, then a NUL when there is room. Nothing at or after `max` is touched. |
| LoggerFilters.CopyReadsBack | template_tests/src/logger/src/logger_common.c:1282-1321 | A text shorter than `max` reads back whole; a longer one is cut at `max`. |
| LoggerFilters.GetMasksReadsBack | template_tests/src/logger/src/logger_common.c:1423-1432 | After `_log_set_mask` with storable names joined by `:`, `_log_get_masks` into a buffer of at least `LOG_LIMIT_MASKS` characters reads back the same text. |
| LoggerFilters.CopyChars | template_tests/src/logger/src/logger_common.c:1302-1306 | The inner copy loop writes `min(len, room)` characters of the name from `pos` and nothing else. |
| LoggerFilters.CopyMaskToString | template_tests/src/logger/src/logger_common.c:1282-1321 | The buffer afterwards is the names in use, joined by `:`, cut to `max`, then a NUL when there is room. |
| LoggerFilters.CopyNames | template_tests/src/logger/src/logger_common.c:1290-1313 | The copy loop writes `min(len, max)` characters of the joined names. It stops with room left only when all of them were written. |
| LoggerFilters.ClearedOne | template_tests/src/logger/src/logger_common.c:1592-1634 | Clearing one token frees at most one slot. It frees none, leaving the table unchanged, exactly when no used slot has that name. |
| LoggerFilters.LastUsedIsLast | template_tests/src/logger/src/logger_common.c:1612-1626 | In a table without holes, the search from the bottom finds the last used slot. |
| LoggerFilters.ClearedTakesOne | template_tests/src/logger/src/logger_common.c:1596-1633 | Clearing keeps the table without holes. When a slot is freed, exactly its entry leaves the used slots. |
| LoggerFilters.Matches | template_tests/src/logger/src/logger_common.c:1509-1524 | The count of used slots named `token` is 0 exactly when no used slot has that name. |
| LoggerFilters.Relevelled | template_tests/src/logger/src/logger_common.c:1509-1524 | Every used slot named `token` takes the new level; every other slot is unchanged. |
| LoggerFilters.FirstFree | template_tests/src/logger/src/logger_common.c:1531-1545 | The first free slot of the table, or none when every slot is used. |
| LoggerFilters.SetOneProperties | template_tests/src/logger/src/logger_common.c:1505-1546 | Setting a token keeps the table without holes. A token already in use is relevelled, and the used slots stay the same. A new token goes into the slot after the used ones with its name cut to `NAME_CAP`. Nothing is set only when the table is full and the token is absent. |
| LoggerFilters.SetThenClear | template_tests/src/logger/src/logger_common.c:1488-1643 | A new domain set to a level and then cleared leaves the used part of the table as it was. |
| LoggerFilters.SetAllKeepsTable | template_tests/src/logger/src/logger_common.c:1503-1553 | Setting any sequence of tokens keeps the table without holes. |
| LoggerFilters.ClearAllKeepsTable | template_tests/src/logger/src/logger_common.c:1592-1637 | Clearing any sequence of tokens keeps the table without holes. |
| LoggerFilters.RemoveAll | template_tests/src/logger/src/logger_common.c:1549-1550 | Removing a sequence of tokens from a list keeps it a list without holes. |
| LoggerFilters.CopiedLevels | template_tests/src/logger/src/logger_common.c:1675-1684 | At most `n` entries are copied from the first `n` slots. |
| LoggerFilters.CopiedLevelsWhole | template_tests/src/logger/src/logger_common.c:1675-1684 | Names that fit the width are copied whole: a table without holes comes back as its used slots among the first `n`. |
| LoggerFilters.CopiedLevelsHead | template_tests/src/logger/src/logger_common.c:1677-1682 | The first copied entry is the first slot, with its name cut to the width, when that slot is used. |
| LoggerFilters.LevelsAsWrittenCutsName | template_tests/src/logger/src/logger_common.c:1679-1680 | As written, `strlcpy(.., maxNameLength - 1)` keeps one character fewer than the width allows. A name of the largest stored length comes back one character short. |
| LoggerFilters.Logger.constructor | template_tests/src/logger/src/logger_common.c:125-149 | The static state: level `LOG_LEVEL_MILE`, both lists and the table of levels empty. |
| LoggerFilters.Logger.SetLevel | template_tests/src/logger/src/logger_common.c:1445-1455 | A level above `LOG_LEVEL_DEBUG` is ignored; any other becomes the global level. |
| LoggerFilters.Logger.ResetLevels | template_tests/src/logger/src/logger_common.c:183-184 | Every slot of the table of levels is freed. |
| LoggerFilters.Logger.ClearToken | template_tests/src/logger/src/logger_common.c:1592-1637 | One token of `_log_clear_domain_level` changes the table as `ClearedOne` says and returns its count. |
| LoggerFilters.Logger.TakeSlot | template_tests/src/logger/src/logger_common.c:1606-1632 | The match at slot `i` takes the last used slot, and that slot is freed. |
| LoggerFilters.Logger.FindLastUsed | template_tests/src/logger/src/logger_common.c:1612-1626 | The search from the bottom of the table stops at the last used slot after `i`, or at `i`. |
| LoggerFilters.Logger.ClearDomainLevel | template_tests/src/logger/src/logger_common.c:1572-1643 | A null or empty argument frees every slot and returns 0. Otherwise each token is cleared in turn, the table keeps no holes, and the count of slots freed is returned. |
| LoggerFilters.Logger.Relevel | template_tests/src/logger/src/logger_common.c:1509-1524 | The first loop relevels every used slot named `token` and counts them. |
| LoggerFilters.Logger.FindFree | template_tests/src/logger/src/logger_common.c:1531-1545 | The second loop finds the first free slot. |
| LoggerFilters.Logger.SetToken | template_tests/src/logger/src/logger_common.c:1505-1546 | One token of `_log_set_domain_level` changes the table as `SetOne` says and returns its count. |
| LoggerFilters.Logger.SetAndUnmask | template_tests/src/logger/src/logger_common.c:1505-1550 | One token is set in the table and then removed from both the show and the hide lists. |
| LoggerFilters.Logger.SetDomainLevel | template_tests/src/logger/src/logger_common.c:1488-1559 | A null or empty argument changes nothing and returns 0. Otherwise every token is set in the table and taken out of both lists, and the number of slots set is returned. |
| LoggerFilters.Logger.ApplyMaskToList | template_tests/src/logger/src/logger_common.c:1229-1270 | The list is emptied and then takes the argument's tokens in order, as far as `MAX_DOMAINS` slots allow. Each placed token is cleared from the table of levels. |
| LoggerFilters.Logger.PlaceTokens | template_tests/src/logger/src/logger_common.c:1244-1265 | The token loop fills the emptied list and clears the placed tokens from the table. |
| LoggerFilters.Logger.PlaceToken | template_tests/src/logger/src/logger_common.c:1250-1262 | A token takes the first free slot and is cleared from the table. With no free slot, nothing changes. |
| LoggerFilters.Logger.SetMask | template_tests/src/logger/src/logger_common.c:1372-1379 | The show list takes the tokens and the hide list is emptied. |
| LoggerFilters.Logger.SetNotMask | template_tests/src/logger/src/logger_common.c:1390-1397 | The hide list takes the tokens and the show list is emptied. |
| LoggerFilters.Logger.GetMasks | template_tests/src/logger/src/logger_common.c:1423-1432 | The show list is copied to the first buffer, then the hide list to the second. When both are the same buffer, the second copy writes over the first. |
| LoggerFilters.Logger.IsSet | template_tests/src/logger/src/logger_common.c:752-795 | With an empty show list, a domain is shown unless some hide pattern matches it. Otherwise a domain is shown only when some show pattern matches it. |
| LoggerFilters.Logger.BestLevel | template_tests/src/logger/src/logger_common.c:832-851 | The scan of the table finds a match if and only if some used slot matches the domain. The level it keeps is a matching slot's, and in a table without `*` it is the level of the slot `Kept` chooses. |
| LoggerFilters.Logger.FilterTrace | template_tests/src/logger/src/logger_common.c:807-865 | A null domain is judged by the global level alone. A domain that no table slot matches is judged by the global level and the show and hide lists. A domain some slot matches is judged by the level of a matching slot; when no used slot holds `*`, that slot is the one `Kept` chooses, the best-scoring match. |
| LoggerFilters.Kept | template_tests/src/logger/src/logger_common.c:832-851 | The slot whose level the filter keeps is a used slot whose pattern matches the domain, and its score is the pattern's count of characters other than `?`. Some slot is kept if and only if some used slot matches. |
| LoggerFilters.KeptIsBest | template_tests/src/logger/src/logger_common.c:832-851 | The kept slot has the highest score of all matching slots. With a positive score, every earlier match scores less, so the first slot to reach the best score wins; with score 0 no later slot matches. |
| LoggerFilters.KeptScoreIsMax | template_tests/src/logger/src/logger_common.c:832-851 | No matching slot scores more than the best score the scan keeps. |
| LoggerFilters.KeptBeatsEarlier | template_tests/src/logger/src/logger_common.c:832-851 | A kept slot with a positive score scores more than every matching slot before it. |
| LoggerFilters.KeptZeroIsLast | template_tests/src/logger/src/logger_common.c:832-851 | A kept slot with score 0 is the last matching slot: a later match replaces it. |
| LoggerFilters.CloserMatchWins | template_tests/src/logger/src/logger_common.c:832-851 | Of `?b` at level 1 and `ab` at level 5, the domain `ab` is judged by `ab`, the closer match, although both match. |
| LoggerFilters.DomainLevelsReadBack | template_tests/src/logger/src/logger_common.c:1665-1689 | With the copy length as intended and a name capacity the stored names fit in, reading the table back gives exactly its used slots, in order, names and levels whole. |
| LoggerFilters.Logger.GetDomainLevels | template_tests/src/logger/src/logger_common.c:1665-1689 | The corrected copy: the used slots among the first `min(MAX_FILTERS, maxDomains)` go in order to the front of `map`, each name kept to `maxNameLength - 1` characters. The rest of `map` is unchanged, and the count is returned. |
| LoggerFilters.ClearList | template_tests/src/logger/src/logger_common.c:1239 | The `memset` frees the first `MAX_DOMAINS` slots. |
| LoggerFilters.FirstFreeName | template_tests/src/logger/src/logger_common.c:1250-1253 | The slot search finds the first free slot among the first `MAX_DOMAINS`, or reports none. |
| LogQueue.Stored | cyclo/src/logger/src/logger_os_linux_thread.cpp:254-255 | A stored message text is the message's C text cut to `_LOG_MAX_TRACE` characters, always NUL-terminated. A short text is kept whole. |
| LogQueue.Entry | cyclo/src/logger/src/logger_os_linux_thread.cpp:234-255 | The pushed message carries its output and its stored text. It carries its parameter except for the dummy output, which copies none. |
| LogQueue.Advance | cyclo/src/logger/src/logger_os_linux_thread.cpp:259-273 | The slot after the last one is the first: `(slot + 1) % depth`. |
| LogQueue.Window | cyclo/src/logger/src/logger_os_linux_thread.cpp:220-331 | The queued messages are the `count` slots from `oldest`, around the ring. |
| LogQueue.WindowPush | cyclo/src/logger/src/logger_os_linux_thread.cpp:234-282 | Storing at the slot after the last queued one appends to the queue. |
| LogQueue.WindowPop | cyclo/src/logger/src/logger_os_linux_thread.cpp:306-331 | Moving `oldest` one slot on drops the first queued message. |
| LogQueue.MessageQueue.constructor | cyclo/src/logger/src/logger_os_linux_thread.cpp:103-150 | The queue starts empty, with both pointers on the first slot. |
| LogQueue.MessageQueue.Push | cyclo/src/logger/src/logger_os_linux_thread.cpp:211-290 | A push on a full queue returns -1 and changes nothing. Otherwise it returns 0, appends the message (first in, first out), moves `next` one slot on around the ring and counts one more message. |
| LogQueue.MessageQueue.Pop | cyclo/src/logger/src/logger_os_linux_thread.cpp:299-342 | A pop on an empty queue gives nothing (NULL). Otherwise it gives the oldest message and removes it, moving `oldest` one slot on and counting one fewer. |
| LogQueue.MessageQueue.Flush | cyclo/src/logger/src/logger_os_linux_thread.cpp:411-431 | Flushing empties the queue. It hands every message to the output, in order, when `logAllMsg` is set, and none otherwise. |
| LogQueue.Warning | cyclo/src/logger/src/logger_os_linux_thread.cpp:555 | The drop warning fits its 50-byte buffer and starts with `##### Dropped logs: `. For any count of up to 23 digits it is the count in decimal between the two marks. |
| LogQueue.WarningCount | cyclo/src/logger/src/logger_os_linux_thread.cpp:555 | The count printed in the warning reads back as the number of dropped messages. |
| LogQueue.WarningParam | cyclo/src/logger/src/logger_os_linux_thread.cpp:557-569 | The warning goes to syslog at `LOG_ERR`, or to the same file as the message. |
| LogQueue.QueueLogger.PushLogToQueue | cyclo/src/logger/src/logger_os_linux_thread.cpp:530-600 | With no drops pending, the message is queued (0), or counted as dropped when the queue is full (1). With drops pending, the warning is queued first. Only then is the counter reset and the message queued after it, or counted as the one drop. When the warning does not fit, the message is lost and not counted. |
| ProgramModel.Program.constructor | cyclo/src/include/program.hpp:68 | A new program is empty, with its iterator at the start. |
| ProgramModel.Program.Start | cyclo/src/include/program.hpp:88 | `start()` puts the iterator back on the first command. |
| ProgramModel.Program.Iterate | cyclo/src/include/program.hpp:76-86 | `iterate()` gives the command under the iterator and advances it. At the end it gives nothing and stays there. |
| ProgramModel.Program.Replay | cyclo/src/include/program.hpp:76-88 | Restarting the program and iterating until nothing comes back yields every command, in order. |
| ProgramModel.Program.Clear | cyclo/src/parser.cpp:161 | Clearing empties the program. |
| ProgramModel.Program.PushBack | cyclo/src/parser.cpp:134 | Appending below the capacity of 12 adds the command at the end and keeps the others. |
| ProgramModel.Program.SetBackDelay | cyclo/src/parser.cpp:124-127 | Only the last command's delay changes. |
| ProgramModel.Program.Assign | cyclo/src/program_manager.cpp:206-214 | The program becomes the given sequence of commands (at most 12). |
| CommandParser.DigitCount | cyclo/src/parser.cpp:43-45 | `strtoul` consumes the leading run of digits: all of it, and not the character after it. |
| CommandParser.StrToUL | cyclo/src/parser.cpp:44 | The value `strtoul` reads fits an unsigned 32-bit `long`. |
| CommandParser.FindUnit | cyclo/src/parser.cpp:32-56 | A unit is found if and only if the table has it, and the factor found belongs to that unit. |
| CommandParser.Parser.constructor | cyclo/src/parser.cpp:17-20 | The parser is bound to the caller's program and to an error string of the caller's capacity. The model starts that string empty; every parse clears it first anyway. |
| CommandParser.Parser.GetDelay | cyclo/src/parser.cpp:27-73 | `get_delay` returns, and leaves in the state, what the delay rules give for the token. |
| CommandParser.Parser.GetProgramNumber | cyclo/src/parser.cpp:79-96 | `get_program_number` accepts a single digit as the program number and otherwise records its error. |
| CommandParser.Parser.SafeInsert | cyclo/src/parser.cpp:102-136 | `safe_insert` changes the program, the error and its position as the insertion rules give, and keeps the program within capacity. |
| CommandParser.Parser.CommandToken | cyclo/src/parser.cpp:231-297 | A token that is not a delay inserts a command or the loop, selects an interactive command, or records "Unexpected". |
| CommandParser.Parser.Step | cyclo/src/parser.cpp:191-230 | One token of the loop: a program number where one is due, or a delay, or a command, as the step rules give. |
| CommandParser.Parser.Parse | cyclo/src/parser.cpp:152-333 | `parse` returns the result and leaves the program, the error, its position and the program number that the parse of the line gives. Whatever an earlier parse left there does not matter. |
| CommandParser.Parser.Finish | cyclo/src/parser.cpp:301-329 | After the last token: an error gives `error`. An empty program gives `nothing`. A lone delay gives `run` when it was a program number, and an error otherwise. |
| ParserProperties.SingleWord | cyclo/src/parser.cpp:169 | A word with no delimiter is one token covering it. |
| ParserProperties.TwoWords | cyclo/src/parser.cpp:169 | Two words separated by one space are two tokens, at 0 and at the second word's offset. |
| ParserProperties.RunTwo | cyclo/src/parser.cpp:169-189 | A line of two words runs the step of each, unless the first leaves an error. |
| ParserProperties.PrefixIsPlain | cyclo/src/parser.cpp:172-174 | A prefix of a command name has no delimiter. |
| ParserProperties.CommandWordIsPlain | cyclo/src/parser.cpp:233-241 | A command word is plain, does not start with a digit, is not `*`, and starts with its command's letter. |
| ParserProperties.DigitCountOfNumber | cyclo/src/parser.cpp:43-45 | `strtoul` stops exactly at the end of the digits. |
| ParserProperties.DelayUnits | cyclo/src/parser.cpp:27-61 | A number and a known unit are a delay of the number times the unit's factor, wrapped to 32 bits. A lone number below 10 also becomes the program number; nothing else changes. |
| ParserProperties.InvalidUnit | cyclo/src/parser.cpp:63-69 | A number followed by an unknown unit records "Invalid unit" with the unit, positioned at the unit's first character. |
| ParserProperties.ProgramNumberDue | cyclo/src/parser.cpp:193-217 | Where a program number is due, the token is accepted if and only if it is one digit, which then becomes the program number. Otherwise the error names the lowest number allowed (0, or 1 after `save`/`delete`). |
| ParserProperties.SafeInsertRules | cyclo/src/parser.cpp:102-136 | `safe_insert` reports "Too many items", "No commands allowed past *" or "Loop not allowed as first action", in this order, and leaves the program alone. Otherwise it appends the command with no delay and gives a previous item without a delay one second, unless the new command is a delay. |
| ParserProperties.SafeInsertWellFormed | cyclo/src/parser.cpp:102-136 | Insertion keeps a program well formed. |
| ParserProperties.StepWellFormed | cyclo/src/parser.cpp:191-298 | Every token keeps the program well formed. |
| ParserProperties.RunWellFormed | cyclo/src/parser.cpp:169-299 | The token loop keeps the program well formed. |
| ParserProperties.ParseWellFormed | cyclo/src/parser.cpp:152-333 | Whatever the line, the program is well formed: at most 12 items, a delay only first, a loop only last and never first, and every item but the last with a non-zero delay. |
| ParserProperties.StepSilent | cyclo/src/parser.cpp:176-298 | With an error string of capacity 0 no step records an error or makes the result `error`. |
| ParserProperties.RunSilent | cyclo/src/parser.cpp:169-299 | The same holds for the whole token loop. |
| ParserProperties.ParseSilent | cyclo/src/program_manager.cpp:26-31 | The program manager's parser, with its zero-capacity error string, never reports `error`, whatever the line. |
| CommandParser.ParseIgnoresDistance | cyclo/src/parser.cpp:152-333 | The error position the parser holds before a parse changes neither the parse's result nor the program it builds. |
| ParserProperties.BlankLine | cyclo/src/parser.cpp:308-311 | A line of spaces and commas only, the empty line included, parses to `nothing` with an empty program. |
| ParserProperties.SingleCommand | cyclo/src/parser.cpp:233-239 | Any prefix of `open` or `close` alone is a program of that one command. |
| ParserProperties.FirstCommand | cyclo/src/parser.cpp:233-239 | The first command of a line becomes the program's first item. |
| ParserProperties.CommandStep | cyclo/src/parser.cpp:231-240 | A command word with no error pending is handed to `safe_insert`. |
| ParserProperties.CommandThenDelay | cyclo/src/parser.cpp:218-225 | `open 5s` and the like give one command whose delay is the number times the unit. |
| ParserProperties.NumberIsPlain | cyclo/src/parser.cpp:27-37 | A number with a unit has no delimiter. |
| ParserProperties.StepOnDelay | cyclo/src/parser.cpp:218-225 | A delay token adds to the last item's delay. |
| ParserProperties.AddToNoDelay | cyclo/src/parser.cpp:224 | Added to an item without a delay, the delay becomes the item's delay. |
| ParserProperties.StepOnFirstDelay | cyclo/src/parser.cpp:226-229 | A delay token on an empty program is inserted as a delay item. |
| ParserProperties.InsertFirst | cyclo/src/parser.cpp:114-134 | The first item is inserted as it is, unless it is the loop. |
| ParserProperties.DelayAfterCommand | cyclo/src/parser.cpp:218-225 | A delay token after a one-command program sets that command's delay and changes nothing else. |
| ParserProperties.LeadingDelayIsDropped | cyclo/src/parser.cpp:121-128 | A delay before the first command inserts a delay item whose value is lost. The command after it turns that delay into one second. |
| ParserProperties.DelayThenCommand | cyclo/src/parser.cpp:218-239 | These are the two steps of a leading delay followed by a command word. |
| ParserProperties.InsertAfterNoDelay | cyclo/src/parser.cpp:121-134 | A command inserted after an item without a delay gives that item one second. |
| ParserProperties.LeadingDelay | cyclo/src/parser.cpp:226-229 | A delay token on an empty program inserts a delay item without a delay. |
| ParserProperties.LoneDigitRuns | cyclo/src/parser.cpp:314-326 | A lone digit is `run` of that program. |
| ParserProperties.InteractiveWordIsPlain | cyclo/src/parser.cpp:255-289 | An interactive command word is plain and cannot be mistaken for a number, a command or the loop. |
| ParserProperties.InteractiveOnlyFirst | cyclo/src/parser.cpp:248-254 | Once the program has an item, an interactive word is "Unexpected", positioned at the word. |
| ParserProperties.CommandThenInteractive | cyclo/src/parser.cpp:248-254 | `open help` is an error pointing at `help`, with the program holding the open command. |
| ParserProperties.ExtraArgument | cyclo/src/parser.cpp:255-269 | A word after `help`, `list` or `quit` is an extra-argument error pointing at it, with an empty program. |
| ParserProperties.ProgramCommand | cyclo/src/parser.cpp:270-289 | `save`, `run`, `delete` and `auto` followed by a digit report their result and the program number. `auto` reports `quit`, and `save 0` and `delete 0` are accepted. |
| ProgramManagerModel.CString | cyclo/src/program_manager.cpp:113-124 | A C string read from memory is the bytes before the first zero byte, none of them zero. |
| ProgramManagerModel.ToBytes | cyclo/src/program_manager.cpp:144 | Each character is stored as its 8-bit code. |
| ProgramManagerModel.StoredText | cyclo/src/program_manager.cpp:144 | `strncpy` keeps the text up to its first NUL, at most 60 characters. |
| ProgramManagerModel.RecordData | cyclo/src/program_manager.cpp:139-144 | The part of the record under the CRC is 62 bytes: the marker 'A', the stored text, then zeros. |
| ProgramManagerModel.Record | cyclo/src/program_manager.cpp:139-147 | A record is 64 bytes: that data, then its 16-bit CRC, least significant byte first. |
| ProgramManagerModel.WithRecord | cyclo/src/program_manager.cpp:149-154 | Writing a record replaces one slot's 64 bytes and keeps the memory's size. |
| ProgramManagerModel.ProgramManager.constructor | cyclo/src/program_manager.cpp:30-70 | With the slot addressing as intended (slot `i` at pages `2i` and `2i+1`): slot 0 is always occupied. Every other slot is occupied if and only if its marker is not erased and its CRC matches. The manager starts automatically if and only if some valid slot is marked '*', and the active program is then the parse of the last such slot's text; with none it stays empty. |
| ProgramManagerModel.ProgramManager.ScanSlot | cyclo/src/program_manager.cpp:40-66 | With the slot addressing as intended: one turn of the scan marks slot `i` if and only if its record is valid. When it is marked '*' the active program becomes the parse of its text; otherwise the active program is unchanged. |
| ProgramManagerModel.LastAuto | cyclo/src/program_manager.cpp:38-66 | The slot whose program stays active after the scan is a valid slot marked '*' with no such slot after it; there is one if and only if some slot is valid and marked '*'. |
| ProgramManagerModel.ProgramManager.GetNext | cyclo/src/program_manager.cpp:77-91 | `get_next` returns the first occupied slot after `from`, or `from` when there is none. |
| ProgramManagerModel.ProgramManager.GetPrev | cyclo/src/program_manager.cpp:96-107 | `get_prev` returns the last occupied slot before `from`, or 0 when there is none. |
| ProgramManagerModel.ProgramManager.WritePgmAt | cyclo/src/program_manager.cpp:131-160 | With the slot addressing and occupancy bit as intended: the record for the text goes to the slot's two pages, and the slot's own bit is set. |
| ProgramManagerModel.ProgramManager.Load | cyclo/src/program_manager.cpp:168-199 | An occupied slot's text is parsed into the active program with the silent parser, whatever error position the parser held before, and the start is published if and only if the parse gives a program. A free slot gives the default program: open 60 s, close 5 s, loop. |
| ProgramManagerModel.ProgramManager.LoadProgram | cyclo/src/program_manager.cpp:206-218 | `load(pgm)`, as intended: the active program becomes a copy of `pgm` and the start is published. |
| ProgramManagerModel.ProgramManager.Erase | cyclo/src/program_manager.cpp:232-236 | `erase` erases the slot's first page and clears its bit. |
| ProgramManagerModel.TwoPages | cyclo/src/program_manager.cpp:149-154 | Writing the record's two halves to the slot's two pages writes the whole record to the slot. |
| ProgramManagerModel.CStringOfBytes | cyclo/src/program_manager.cpp:113-124 | A NUL-free text stored as bytes and followed by a zero byte reads back as the text. |
| ProgramManagerModel.RecordReadsBack | cyclo/src/program_manager.cpp:113-124 | A slot holding the record written for a text is valid, is not marked to start automatically, and reads back the stored text. Write, then power-up, then read is a round trip. |
| ProgramManagerModel.RecordIsValid | cyclo/src/program_manager.cpp:44-53 | A record whose CRC matches its data passes the power-up check. |
| ProgramManagerModel.StoredBytes | cyclo/src/program_manager.cpp:144 | The text `strncpy` keeps is made of bytes when the source text is. |
| ProgramManagerModel.TextBytesAt | cyclo/src/program_manager.cpp:113-124 | Past the marker, a record's bytes are the stored text and its NUL. |
| ProgramManagerModel.ErasedSlotIsFree | cyclo/src/program_manager.cpp:232-236 | An erased slot's marker reads 0xFF, so the next power-up leaves it free. |
| ProgramManagerModel.OtherSlotsKept | cyclo/src/program_manager.cpp:131-160 | Writing one slot leaves every other slot's record as it was. |
| ProgramManagerModel.PgmAtAsWritten | cyclo/src/include/program_manager.hpp:136-139 | As written, `pgm_at` multiplies by 60 / 32, which is 1, so it gives one page per slot. |
| ProgramManagerModel.MarkWrittenAsWritten | cyclo/src/program_manager.cpp:136-157 | As written, `write_pgm_at` sets the bit of the doubled position, and a doubled position past the map sets nothing. |
| ProgramManagerModel.PgmAtAsWrittenOverlaps | cyclo/src/include/program_manager.hpp:136-139 | As written, slot 1 is looked for in the second half of slot 0's record, and every slot but 0 is looked for at the wrong place. |
| ProgramManagerModel.MarkWrittenAsWrittenMisses | cyclo/src/program_manager.cpp:136-157 | As written, writing slot 1 marks slot 2 and leaves slot 1 free, and writing slot 5 marks nothing. |
| ProgramManagerModel.CopyOverAsWritten | cyclo/src/program_manager.cpp:214 | As written, `load(pgm)` keeps the active program's length: the copied items show only where it had items, and its old items remain past the end of `pgm`. |
| ProgramManagerModel.CopyOverAsWrittenDiffers | cyclo/src/program_manager.cpp:214 | As written, the copy is the active program if and only if the lengths already agreed. Loading `open 1s` over the default program keeps its close and loop, and loading into an empty program loads nothing. |
| Console.ResetEditor | cyclo/src/include/console_server.hpp:110-115 | `reset()`, as intended: it leaves any escape sequence, empties the line with the cursor at its start, forgets a pending skip, and keeps the history. |
| Console.ResetAsWrittenLosesCursor | cyclo/src/include/console_server.hpp:110-115 | As written, `reset()` empties the line but leaves the cursor where it was: after `ab` the cursor is past the end of the empty line. |
| Console.ReactValid | cyclo/src/include/console_server.hpp:118-320 | Every input character keeps the line within 40 characters, the cursor within the line and the history within 10 entries. |
| Console.CursorKeyValid | cyclo/src/include/console_server.hpp:136-197 | The same holds for the end of an escape sequence. |
| Console.RegularValid | cyclo/src/include/console_server.hpp:215-319 | The same holds for an ordinary character. |
| Console.ReactInsert | cyclo/src/include/console_server.hpp:216-248 | A printable character with room left is inserted at the cursor, which moves past it. |
| Console.ReactFull | cyclo/src/include/console_server.hpp:220-253 | A printable character on a full line rings the bell and changes nothing. |
| Console.ReactErase | cyclo/src/include/console_server.hpp:279-312 | Backspace or delete removes the character before the cursor. At the start of the line it rings the bell. |
| Console.ReactEnter | cyclo/src/include/console_server.hpp:256-278 | ENTER echoes CR LF and hands back the line, even an empty one. A non-empty line becomes the newest history entry, and editing restarts on an empty line. |
| Console.PushedKeepsNewest | cyclo/src/include/console_server.hpp:354 | The history keeps the newest 10 lines, oldest first. |
| Console.CrLfIsOneLine | cyclo/src/include/console_server.hpp:122-128 | CR LF gives one line: the LF after the CR is swallowed, and further LFs are swallowed too until another character comes. |
| Console.LfThenCrIsTwoLines | cyclo/src/include/console_server.hpp:122-131 | After a line ended with LF, a CR is a new ENTER on an empty line. |
| Console.EscapeSequenceRight | cyclo/src/include/console_server.hpp:136-154 | `ESC [ C` moves the cursor one place right and echoes the move, or rings the bell at the end of the line. The line does not change. |
| Console.ConsoleServer.constructor | cyclo/src/include/console_server.hpp:96-101 | A new server has an empty line, the cursor at its start, no history, the normal state and no skip. |
| Console.ConsoleServer.GetLine | cyclo/src/include/console_server.hpp:105 | `get_line()` is the newest history entry. |
| Console.ConsoleServer.Reset | cyclo/src/include/console_server.hpp:110-115 | `reset()` leaves the state that `ResetEditor` gives. |
| Console.ConsoleServer.ProcessInput | cyclo/src/include/console_server.hpp:118-320 | `process_input(c)` leaves the editor state, the terminal output and the returned line that the reaction to `c` gives. |
| Console.ConsoleServer.CursorKeyInput | cyclo/src/include/console_server.hpp:136-197 | The end of an escape sequence acts as `CursorKey` says. |
| Console.ConsoleServer.RegularInput | cyclo/src/include/console_server.hpp:215-319 | An ordinary character acts as `Regular` says. |
| Console.ConsoleServer.InsertInput | cyclo/src/include/console_server.hpp:216-254 | A printable character is appended and echoed. In mid-line it is inserted, the line is repainted and the cursor is moved back. |
| Console.ConsoleServer.EnterInput | cyclo/src/include/console_server.hpp:256-278 | ENTER acts as `Regular` says. |
| Console.ConsoleServer.EraseInput | cyclo/src/include/console_server.hpp:279-313 | Backspace and delete act as `Regular` says. |
| Console.ConsoleServer.Repaint | cyclo/src/include/console_server.hpp:323-341 | `repaint(n)` writes the start-of-line move, the prompt and the line, then erases what is left up to `n`. |
| Console.ConsoleServer.DoHistory | cyclo/src/include/console_server.hpp:343-402 | Saving pushes the line, resets the history position and empties the line. Up and down move through the history and show the entry reached, or ring the bell at either end. |
| Vt100.UpToNul | cyclo/src/include/vt100.hpp:96-122 | A C string is read up to its first NUL, which is not included. |
| Vt100.ForwardsShape | cyclo/src/include/vt100.hpp:140-148 | `move_forward(n)` writes 3n characters, each group an `ESC [ C`. |
| Vt100.UpToNulTerminated | cyclo/src/include/vt100.hpp:110-122 | A NUL-terminated literal reads back as its characters. |
| Vt100.Terminal.constructor | cyclo/src/include/vt100.hpp:74-76 | A terminal starts with nothing written. |
| Vt100.Terminal.Putc | cyclo/src/include/vt100.hpp:94 | `putc` writes one character. |
| Vt100.Terminal.Puts | cyclo/src/include/vt100.hpp:110-122 | `puts` writes the string up to its NUL; a null pointer writes nothing. |
| Vt100.Terminal.PrintP | cyclo/src/include/vt100.hpp:96-108 | `print_P` does the same for a string in program memory. |
| Vt100.Terminal.Init | cyclo/src/include/vt100.hpp:77-81 | `init` writes `ESC c`. |
| Vt100.Terminal.Clear | cyclo/src/include/vt100.hpp:83-87 | `clear` writes `ESC [ 2 J`. |
| Vt100.Terminal.SetCursorMode | cyclo/src/include/vt100.hpp:89-92 | The cursor mode writes `ESC [ ? 25 h` to show the cursor, and `ESC [ ? 25 l` to hide it. |
| Vt100.Terminal.RingBell | cyclo/src/include/vt100.hpp:124 | The bell is one BEL. |
| Vt100.Terminal.MoveToStartOfNextLine | cyclo/src/include/vt100.hpp:126-130 | The next line is CR LF. |
| Vt100.Terminal.MoveBack | cyclo/src/include/vt100.hpp:132-138 | `move_back(n)` writes n backspaces. |
| Vt100.Terminal.MoveForward | cyclo/src/include/vt100.hpp:140-148 | `move_forward(n)` writes n cursor-right sequences. |
| Vt100.Terminal.MoveBackWithErase | cyclo/src/include/vt100.hpp:150-155 | Erasing back writes BS, space, BS. |
| Vt100.Terminal.MoveToStart | cyclo/src/include/vt100.hpp:157 | The start of the line is CR. |
| Vt100.Terminal.EraseRight | cyclo/src/include/vt100.hpp:159-172 | `erase_right(n)` writes n spaces, then n backspaces. |
| Keypad.Debounce | template_tests/src/keypad.cpp:109-126 | The integrator step keeps the key's pin and registration. |
| Keypad.Sample | template_tests/src/keypad.cpp:107-142 | A sample keeps the key's pin and registration. |
| Keypad.Register | template_tests/src/keypad.cpp:170-180 | Registration as intended: the key keeps its code. A key whose code is in the mask gets the handler and its parameter, and any other key is left alone. |
| Keypad.InitialMask | template_tests/src/keypad.cpp:153-155 | `keypad_init` gives key i the code 1 << i: up 1, down 2, select 4. |
| Keypad.RegisterAsWrittenLosesKeys | template_tests/src/keypad.cpp:175 | As written, `&=` overwrites the key's code. Registering the up key, then the down key, leaves the up key's code 0 after the second call and no handler on the down key. |
| Keypad.RegisterInTurn | template_tests/src/keypad.cpp:170-180 | With the intended registration, two calls with disjoint masks keep every code. The later call wins for its keys, and the earlier one holds for the rest. |
| Keypad.SampleBounded | template_tests/src/keypad.cpp:109-142 | A sample keeps the integrator within [0, 4] and the cycle count within [0, 80]. |
| Keypad.OutputTurnsOn | template_tests/src/keypad.cpp:110-124 | The integrator reaches 4 exactly when the pin is low at 3. The output then turns on and the cycle count restarts. The output turns off when the integrator falls to 0, and is kept in between. |
| Keypad.PressFiresOnce | template_tests/src/keypad.cpp:110-135 | A released key held low for 4 samples turns on and calls its handler once. |
| Keypad.RepeatsArePeriodic | template_tests/src/keypad.cpp:129-141 | Past the first repeat, a held key goes round every 10 samples, 100 ms, calling its handler once per round. |
| Keypad.HeldCount | template_tests/src/keypad.cpp:129-141 | Between repeat points a held key only advances its count and calls nothing. |
| Keypad.KeypadDriver.constructor | template_tests/src/keypad.cpp:148-156 | `keypad_init`: key i samples pin i and has code 1 << i, with no handler and its counters at zero. |
| Keypad.KeypadDriver.Process | template_tests/src/keypad.cpp:100-145 | `keypad_process` samples every key. The handler calls come out in key order, and a key without a handler is not updated. |
| Keypad.KeypadDriver.RegisterCallback | template_tests/src/keypad.cpp:170-180 | `keypad_register_callback`, as intended, applies `Register` to every key. |
| ContactModel.RelayFor | cyclo/src/contact.cpp:12-19 | The relay level chosen for open or close makes `is_open()` report exactly that state under the wiring. |
| ContactModel.Contact.constructor | cyclo/src/include/contact.hpp:34 | A new contact is normally open, and nothing has been asked of it. |
| ContactModel.Contact.Set | cyclo/src/include/contact.hpp:53-71 | `set(v)` records `v`. After open, `is_open()` holds; after close it does not; "leave as" does not touch the relay. An update is published if and only if the recorded state changed. |
| ContactModel.Contact.Flip | cyclo/src/include/contact.hpp:43-50 | `flip()` inverts `is_open()` and leaves the request at "leave as". It publishes one update for the flip, when the state changed, and one for returning to "leave as". |
| ContactModel.Contact.SetAsNo | cyclo/src/include/contact.hpp:78-91 | `set_as_no` sets the wiring and applies the recorded request again. A contact update is published besides the NO/NC one if and only if `is_open()` changed. |
| ContactModel.RewiringAfterFlip | cyclo/src/include/contact.hpp:48-83 | After a flip, changing the wiring keeps the relay, so the contact it drives changes state. |
| UiController.WalkmanStep | cyclo/src/include/ui_controller.hpp:96-143 | The walkman table: only a push changes the program state or has effects. `select` is left on the first `next` and never entered again. |
| UiController.SelectRoutes | cyclo/src/include/ui_controller.hpp:97-100 | From `select`, `next` goes to pause while the program runs, to play when it is stopped, and to play-or-stop otherwise. |
| UiController.PushSetsProgramState | cyclo/src/include/ui_controller.hpp:104-143 | A push runs the program from play and from play-or-stop, pauses it from pause, and stops it from stop. |
| UiController.WalkmanKeepsAgreement | cyclo/src/include/ui_controller.hpp:96-143 | Every transition keeps the screen in agreement with the program: pause only while it runs, play-or-stop and stop only while it is paused. |
| UiController.PlayPauseResume | cyclo/src/include/ui_controller.hpp:104-132 | Play, pause, play: the program is loaded and started from the beginning, then stopped, then resumed where it was. |
| UiController.WalkmanController.constructor | cyclo/src/include/ui_controller.hpp:97 | Starting the machine enters `select`, whose entry action sets the `next` flag. |
| UiController.WalkmanController.Deliver | cyclo/src/include/ui_controller.hpp:96-143 | One event moves the machine as the table says and records the effects, in order. |
| UiController.WalkmanController.ProcessEvent | cyclo/src/include/ui_controller.hpp:63-75 | `process_event` delivers the event, then `next` while the flag is set, clearing it first each time. At most one `next` follows, and the flag ends cleared. |
| UiController.FirstEventRoutes | cyclo/src/include/ui_controller.hpp:63-100 | Whatever the first event, the `next` after it places the walkman by the program state. |
| UiController.Increment | cyclo/src/include/ui_controller.hpp:163-235 | Up does nothing at the field's top and adds one below it, so the value stays within the top. |
| UiController.Decrement | cyclo/src/include/ui_controller.hpp:170-242 | Down does nothing at 0 and subtracts one above it. |
| UiController.SetupStep | cyclo/src/include/ui_controller.hpp:162-245 | The setup table keeps every field within its bounds. Up and down change only the field being edited, a push moves to the next field, and only the last push sets `next`. |
| UiController.SetupUpDown | cyclo/src/include/ui_controller.hpp:163-242 | Up at the top and down at 0 change nothing. Below the top, down undoes up, and up adds exactly one. |
| UiController.SetupRun | cyclo/src/include/ui_controller.hpp:162-245 | Any sequence of setup events keeps the fields within their bounds. |
| UiController.PushCycle | cyclo/src/include/ui_controller.hpp:177-243 | Four pushes walk through on minutes, on seconds, off minutes and off seconds, then end the machine with `next` and the values untouched. |
| UiController.SetupDoneStays | cyclo/src/include/ui_controller.hpp:243 | Once the setup machine has ended, it takes no more events. |
| UiController.SetupController.constructor | cyclo/src/include/ui_controller.hpp:163 | The setup machine starts on the on-minutes field. |
| UiController.SetupController.Process | cyclo/src/include/ui_controller.hpp:162-245 | One event changes the state and the model's four fields as the table says, and returns the `next` flag it sets. |
| UiController.CycloStep | cyclo/src/include/ui_controller.hpp:350-357 | The top table: the splash screen ends only on its timeout, USB on goes from manual to USB mode, and USB off comes back. |
| UiController.UsbRoundTrip | cyclo/src/include/ui_controller.hpp:351-357 | USB on, then off, returns to manual mode, and the splash screen is never shown again once left. |
| UiModel.ToMinSec | cyclo/src/ui_model.cpp:53-58 | The seconds are below 60. For any time below 256 minutes, the minutes and seconds add up to the whole seconds of the time. |
| UiModel.ToMinSecInverse | cyclo/src/ui_model.cpp:53-74 | A time of fewer than 256 minutes and under 60 seconds, written as milliseconds, converts back to the same minutes and seconds. |
| UiModel.ManualText | cyclo/src/ui_model.cpp:72-74 | The manual program's text fits the 22-byte buffer. For two-digit fields it is `c MMM SSs o MMM SSs *` with every field zero-padded to two digits. |
| UiModel.PrintableConcat | cyclo/src/ui_model.cpp:74 | Printable texts concatenate to a printable text. |
| UiModel.PrintableDecimal2 | cyclo/src/ui_model.cpp:74 | A zero-padded decimal field is printable. |
| UiModel.ManualTextStored | cyclo/src/ui_model.cpp:72-76 | The manual text is 8-bit text without NUL that slot 0 stores whole. |
| UiModel.UIModel.constructor | cyclo/src/ui_model.cpp:42-66 | The model loads slot 0: the active program is the parse of slot 0's text when it is occupied, and the default program otherwise. It takes the on time from its first command's delay and the off time from its second's, as minutes and seconds. The selected slot is the one on display. |
| UiModel.UIModel.StoreManualPgm | cyclo/src/ui_model.cpp:70-80 | `store_manual_pgm` writes the manual text's record to slot 0 and marks it occupied. It then reloads the slot, so the active program is that text, parsed. |
| UiModel.ErasedSlotZeroParsesEmpty | cyclo/src/program_manager.cpp:67-69 | On an erased EEPROM slot 0 is still marked occupied, and loading it parses the erased bytes into an empty program. |
| Quadrant.Index | template_tests/src/ui_worker.hpp:48-49 | `*q` is the quadrant's index from 0, below 4, and `none` wraps to 255. |
| Quadrant.StepsStayInRange | template_tests/src/ui_worker.hpp:51-77 | `++` and `--` keep the cursor on one of the four quadrants. They step by one, from info back round to prog and from prog back round to info. |
| Quadrant.StepsCycle | template_tests/src/ui_worker.hpp:51-77 | Stepping back undoes stepping forward, and four steps forward return to the start. |
| Quadrant.QuadrantVar.constructor | template_tests/src/ui_worker.hpp:38-46 | A variable holds the quadrant it was given. |
| Quadrant.QuadrantVar.PostIncrement | template_tests/src/ui_worker.hpp:51-63 | `q++` returns the old value and leaves the next quadrant. |
| Quadrant.QuadrantVar.PostDecrement | template_tests/src/ui_worker.hpp:65-77 | `q--` returns the old value and leaves the previous quadrant. |
| Ssd1306.Advance | cyclo/src/simulation/src/ssd1306.c:36-40 | After a transfer the column moves on by one. After column 15 it goes back to 0 and the page moves on, in 8-bit arithmetic. |
| Ssd1306.AdvanceByFromPageStart | cyclo/src/simulation/src/ssd1306.c:32-54 | From the start of a page, n transfers fill the page's first 16 columns, then go on with the next page: they end on page + n / 16, column n % 16. |
| Ssd1306.AdvanceWithinPage | cyclo/src/simulation/src/ssd1306.c:36-40 | Transfers that stay before column 16 only move the column. |
| Ssd1306.AdvanceSplit | cyclo/src/simulation/src/ssd1306.c:32-54 | m + n transfers are m transfers followed by n. |
| Ssd1306.Display.constructor | cyclo/src/simulation/src/ssd1306.c:7-9 | The static frame buffer and both addresses start at zero. |
| Ssd1306.Display.Init | cyclo/src/simulation/src/ssd1306.c:11-14 | `ssd1306_init` clears the whole frame buffer. |
| Ssd1306.Display.SetPageAddress | cyclo/src/simulation/src/ssd1306.c:20-24 | Only the low four bits of the page address are kept, so a page below 16 is kept as given. |
| Ssd1306.Display.SetColumnAddress | cyclo/src/simulation/src/ssd1306.c:26-30 | Only the low seven bits of the column address are kept, so a column below 128 is kept as given. |
| Ssd1306.Display.WriteData | cyclo/src/simulation/src/ssd1306.c:32-41 | `ssd1306_write_data` stores the byte at the position and changes no other byte; the position then advances. |
| Ssd1306.Display.ReadData | cyclo/src/simulation/src/ssd1306.c:43-54 | `ssd1306_read_data` returns the byte at the position, which then advances, and changes nothing else. |
| SimPorts.MasksApart | cyclo/src/simulation/src/sim.cpp:62-63 | Two different bits of a port have disjoint masks. |
| SimPorts.SetBitBits | cyclo/src/simulation/src/sim.cpp:86-90 | Setting a pin's bit sets it and keeps every other bit. |
| SimPorts.ClearBitBits | cyclo/src/simulation/src/sim.cpp:91-95 | Clearing a pin's bit clears it and keeps every other bit. |
| SimPorts.ToggledBits | cyclo/src/simulation/src/sim.cpp:109-110 | Toggling a pin's bit flips it and keeps every other bit. |
| SimPorts.WithBitBits | cyclo/src/simulation/src/sim.cpp:74-96 | After `ioport_set_pin_level` the pin reads back the level it was given, and every other bit is kept. |
| SimPorts.ToggleTwice | cyclo/src/simulation/src/sim.cpp:98-111 | Toggling a pin twice gives the port back. |
| SimPorts.Ports.constructor | cyclo/src/simulation/src/sim.cpp:52 | All eight ports start at zero. |
| SimPorts.Ports.GetPinLevel | cyclo/src/simulation/src/sim.cpp:60-72 | `ioport_get_pin_level` reads bit `pin & 7` of port `pin >> 8` and changes nothing. |
| SimPorts.Ports.SetPinLevel | cyclo/src/simulation/src/sim.cpp:74-96 | `ioport_set_pin_level` changes only the pin's port, where the pin's bit takes the level. |
| SimPorts.Ports.TogglePinLevel | cyclo/src/simulation/src/sim.cpp:98-111 | `ioport_toggle_pin_level` changes only the pin's port, where only the pin's bit flips. |
| SimPorts.SimKeypad.constructor | cyclo/src/simulation/src/sim.cpp:132-133 | The simulated keypad's table is up, down and select, each with its code and no handler. |
| SimPorts.SimKeypad.RegisterCallback | cyclo/src/simulation/src/sim.cpp:241-253 | Registration, as intended: every key gets `Register` applied. |
| Nvm.WithPage | cyclo/src/simulation/src/nvm.cpp:59-102 | Replacing a page keeps the memory's size. The page holds the new content, and the bytes before and after it are kept. |
| Nvm.Eeprom.constructor | cyclo/src/simulation/src/nvm.cpp:17-21 | The static memory reads zero before `nvm_init`. |
| Nvm.Eeprom.Init | cyclo/src/simulation/src/nvm.cpp:34 | `nvm_init` makes every byte read 0xFF. |
| Nvm.Eeprom.LoadPageToBuffer | cyclo/src/simulation/src/nvm.cpp:73-76 | The first 32 bytes of the values go to the page buffer. |
| Nvm.Eeprom.AtomicWritePage | cyclo/src/simulation/src/nvm.cpp:53-59 | The page buffer is copied to the page, and nothing else in memory changes. |
| Nvm.Eeprom.ErasePage | cyclo/src/simulation/src/nvm.cpp:100-103 | Every byte of the page reads 0xFF, and nothing else changes. |
| Nvm.WithPageOther | cyclo/src/simulation/src/nvm.cpp:59-102 | Writing one page leaves every other page as it was. |
| RcCompiler.Get | cyclo/make/rc.py:111-117 | `d.get(key, default)` gives the default when the key is absent. |
| RcCompiler.Iter | cyclo/make/rc.py:106-128 | A `for` loop runs over a string, a list or a dict, and over a list's items in order. Any other value raises. |
| RcCompiler.Lift | cyclo/make/rc.py:158-159 | Lines become Python strings one for one. |
| RcCompiler.LiftAppend | cyclo/make/rc.py:158-159 | Lifting two lists of lines lifts their concatenation. |
| RcCompiler.Join | cyclo/make/rc.py:166-169 | Joining no parts gives the empty string, and joining one part gives that part. |
| RcCompiler.JoinLines | cyclo/make/rc.py:166-169 | `"\n".join` succeeds if and only if every line is a string. |
| RcCompiler.JoinLinesLift | cyclo/make/rc.py:166-169 | Lines built as strings always join. |
| RcCompiler.ReplaceDots | cyclo/make/rc.py:182 | `replace('.', '__')` leaves no dot. |
| RcCompiler.Root | cyclo/make/rc.py:31 | A path has a root if and only if it starts with `/`. The root is `//` for exactly two leading slashes, and `/` otherwise. |
| RcCompiler.Fields | cyclo/make/rc.py:182 | Splitting on `/` gives at least one field, made of the path's characters other than `/`. |
| RcCompiler.Names | cyclo/make/rc.py:182 | The path's components drop empty fields and `.`. |
| RcCompiler.SrcCode | cyclo/make/rc.py:171-179 | `get_src_code` opens a source with the generated-file notice and closes it with `// End of file` between empty lines. |
| RcCompiler.GuardPairs | cyclo/make/rc.py:181-192 | A header's opening guard and its closing `#endif` name the same macro, `<token>_was_included`, and the token has no dot. |
| RcCompiler.JoinChars | cyclo/make/rc.py:182 | A character of a joined string comes from the separator or from one of the parts. |
| RcCompiler.ReplaceDotsChars | cyclo/make/rc.py:182 | A character of the replaced string is `_` or a character of the original other than `.`. |
| RcCompiler.GuardIsWord | cyclo/make/rc.py:182 | A relative header path made of word characters, dots and slashes gives a guard made of word characters only. |
| RcCompiler.NameChars | cyclo/make/rc.py:182 | A character of a path component is a character of the path other than `/`. |
| RcCompiler.IdMatchesIff | cyclo/make/rc.py:120 | `re.match` anchors only at the start, so an id passes if and only if its first character is a word character in Python's Unicode sense: an ASCII letter, digit or `_`, or a non-ASCII character of the host's Unicode word class. |
| RcCompiler.Bin | cyclo/make/rc.py:59-60 | Binarising gives 0 or 1, and 1 exactly for a value above 0. |
| RcCompiler.RowText | cyclo/make/rc.py:58-61 | A row's text has one digit per pixel. |
| RcCompiler.Comments | cyclo/make/rc.py:56-62 | There is one comment line per row. |
| RcCompiler.Pow2 | cyclo/make/rc.py:71 | A power of two is at least 1. |
| RcCompiler.ColumnByte | cyclo/make/rc.py:71 | A packed byte is below 256. |
| RcCompiler.SetSumBelow | cyclo/make/rc.py:71 | The sum of the set bits below n is below 2^n. |
| RcCompiler.SetSumSplit | cyclo/make/rc.py:71 | The top row of the band is bit 0, and the rows below it are the rest, shifted by one. |
| RcCompiler.SetSumBit | cyclo/make/rc.py:71 | Bit k of the sum is set if and only if the pixel k rows down is lit. |
| RcCompiler.ColumnByteBits | cyclo/make/rc.py:66-71 | Bit k of the byte for column x of a band is the pixel k rows down the band, bit 0 being the top. |
| RcCompiler.Hex2 | cyclo/make/rc.py:70 | `"0x%.2x"` gives four characters. |
| RcCompiler.Item | cyclo/make/rc.py:70-72 | A byte and its separator take 5 characters for the eighth, which is followed by `,`, and 6 for the others, followed by `, `. |
| RcCompiler.Items | cyclo/make/rc.py:69-73 | A table line's items take 6 characters per byte, less one when there are eight. |
| RcCompiler.GroupBytes | cyclo/make/rc.py:69-73 | A group holds eight bytes, each below 256. |
| RcCompiler.TableLinesLength | cyclo/make/rc.py:66-75 | A table of y / 8 bands holds width / 8 lines per band. |
| RcCompiler.StripLast | cyclo/make/rc.py:77 | Removing the last character changes only the last line. |
| RcCompiler.StripLastAppend | cyclo/make/rc.py:77 | Stripping a list with lines after a prefix keeps the prefix. |
| RcCompiler.RowTextAt | cyclo/make/rc.py:58-61 | Digit x of a row's comment is `1` for a lit pixel and `0` for a dark one. |
| RcCompiler.CommentsAt | cyclo/make/rc.py:56-62 | Comment line y shows row y. |
| RcCompiler.CommentShowsRow | cyclo/make/rc.py:56-62 | Each row's comment is `// ` followed by one `0` or `1` per pixel, so it has 3 + width characters. |
| RcCompiler.Hex2Reads | cyclo/make/rc.py:70 | A `0xHH` item reads back as its byte. |
| RcCompiler.ItemsAt | cyclo/make/rc.py:69-73 | Byte z of a table line is the item at offset 6z. |
| RcCompiler.GroupLineAt | cyclo/make/rc.py:68-74 | Byte z of a group line sits at column 3 + 6z. The line is 50 characters and ends with `,`. |
| RcCompiler.MulStep | cyclo/make/rc.py:66-67 | A line index inside the table is below the number of lines. |
| RcCompiler.TableLinesAt | cyclo/make/rc.py:66-75 | Line `b * (width / 8) + c` of the table is the line of group c in band b, in band-major order. |
| RcCompiler.TableShowsPixel | cyclo/make/rc.py:56-75 | Reading the table back: the pixel at (x, y) is bit `y % 8` of the item at column `3 + 6 (x % 8)` of line `(y / 8)(width / 8) + x / 8`. Every pixel can be recovered. |
| RcCompiler.ByteShowsPixel | cyclo/make/rc.py:66-75 | The same read-back, for one pixel of one group of one band. |
| RcCompiler.TableSize | cyclo/make/rc.py:66-75 | A table holds width x height / 8 bytes, eight per line. |
| RcCompiler.TableLineEnd | cyclo/make/rc.py:68-74 | Every table line holds eight bytes and ends with `,`. |
| RcCompiler.TableBlockShape | cyclo/make/rc.py:64-77 | Removing the last `,` keeps the opening and every table line but the last. The last line loses its `,`, and a table without lines loses the opening's `{` instead. |
| RcCompiler.SourceShape | cyclo/make/rc.py:56-92 | A bitmap's source is one comment per row, then the table block, then `};`, an empty line, and the descriptor with the image's width and height. |
| RcCompiler.AppendAssoc | cyclo/make/rc.py:158-163 | Concatenation of lines is associative. |
| RcCompiler.Grid | cyclo/make/rc.py:47-48 | The pixel access object is read column by column. |
| RcCompiler.Bitmap.constructor | cyclo/make/rc.py:16-21 | A new resource has no code. |
| RcCompiler.Bitmap.Build | cyclo/make/rc.py:46-92 | A height not a multiple of 8 raises and adds no code. A non-empty image whose width is not a multiple of 8 makes the packing read past its right edge, an uncaught error. Otherwise the source gets `BitmapSource`, the header gets the one `extern` line, and every pixel is binarised in place. |
| RcCompiler.Bitmap.AppendComments | cyclo/make/rc.py:56-62 | The first pass appends one comment line per row and binarises every pixel. |
| RcCompiler.Bitmap.AppendTable | cyclo/make/rc.py:64-75 | The second pass appends one line per group of eight columns, band after band. |
| RcCompiler.Bitmap.AppendBand | cyclo/make/rc.py:67-74 | One band's lines, one per group of eight columns. |
| RcCompiler.BinarizeRow | cyclo/make/rc.py:57-62 | Binarises row y in place, changes no other row, and returns the row's comment line. |
| RcCompiler.PackGroup | cyclo/make/rc.py:68-74 | Returns the table line of one group of eight columns. |
| RcCompiler.PackColumn | cyclo/make/rc.py:71 | Returns the byte for one column of a band. |
| RcManifest.DepFiles | cyclo/make/rc.py:199-201 | There is one continuation line per id, naming that resource's image file. |
| RcManifest.DepLinesSnoc | cyclo/make/rc.py:196-206 | Each pair's dependency entry follows the entries of the pairs before it. |
| RcManifest.ExitStatus | cyclo/make/rc.py:220-228 | The exit status is 0 exactly when the run succeeds. Every failure, reported or not, exits with 1. |
| RcManifest.DeclareChecks | cyclo/make/rc.py:106-119 | The checks on an `in` entry come in the source's order: a non-dictionary first, then a missing type, then an unknown type, then a missing id. Each is reported exactly when its condition holds. |
| RcManifest.IdCheck | cyclo/make/rc.py:117-121 | A bitmap entry's string id is refused exactly when its first character is not a word character in Python's Unicode sense. |
| RcManifest.DeclaredExists | cyclo/make/rc.py:117-121 | An entry that passes its checks names an existing file, and its id matches the pattern. |
| RcManifest.OddHeightRefused | cyclo/make/rc.py:52-54 | An image whose height is not a multiple of 8 is refused, whatever its width. |
| RcManifest.LoadedAll | cyclo/make/rc.py:106-126 | When the resource loop succeeds, every entry passed its checks and was built, and every id is stored. Each resource has exactly one header line, its own `extern` declaration. |
| RcManifest.AddIdsResult | cyclo/make/rc.py:153-159 | A pair's id loop succeeds exactly when every id is a declared resource. It then appends the resources' source and header lines in the order of `ids`. |
| RcManifest.UndeclaredStops | cyclo/make/rc.py:155-156 | The first string id that is not declared stops the pair with "Undeclared resource id". |
| RcManifest.HeaderShape | cyclo/make/rc.py:131-163 | An assembled header is the guard's opening and the notice, the optional `inc_header` lines with a blank line, the header lines of exactly the pair's own ids, and the guard's end. |
| RcManifest.PairValid | cyclo/make/rc.py:128-163 | A pair that assembles, with a string source path, names declared resources only. |
| RcManifest.AssembleStep | cyclo/make/rc.py:128-169 | Each pair of a successful output loop assembles and writes one source, then one header. |
| RcManifest.AssembledAll | cyclo/make/rc.py:128-169 | When the output loop succeeds, every pair was assembled, and exactly two files per pair were written. |
| RcManifest.FailedPairWritesNothing | cyclo/make/rc.py:133-163 | A pair whose assembly fails writes no file of its own; only the pairs before it have been written. |
| RcManifest.ParseReady | cyclo/make/rc.py:96-169 | A successful parse leaves what `gen_deps` relies on: every pair has string paths and declared ids. |
| RcManifest.LoadFailureWritesNothing | cyclo/make/rc.py:106-128 | A failing resource stops the run before any file is written, and the run exits with 1. |
| RcManifest.DepEntryShape | cyclo/make/rc.py:197-206 | Each dependency entry is the rule naming both outputs, one line per image file, a blank line, the `SRCS.rc` line and another blank line. |
| RcManifest.Decode | cyclo/make/rc.py:47-48 | Loading an image gives its pixels as an array of its width and height. |
| RcManifest.BuildBitmap | cyclo/make/rc.py:45-92 | Building a declared bitmap gives what `Compile` says. |
| RcManifest.ResourceParser.constructor | cyclo/make/rc.py:96-169 | `ResourceParser.__init__` writes the files that `Parse` gives. It fails exactly when `Parse` does, with the same error, and otherwise keeps the resources built. |
| RcManifest.ResourceParser.ParseManifest | cyclo/make/rc.py:101-169 | The body of `__init__`: the same writes and outcome. |
| RcManifest.ResourceParser.LoadResources | cyclo/make/rc.py:106-126 | The loop over `in` stores the resources that `LoadFrom` gives, or stops with its error. |
| RcManifest.ResourceParser.WriteOutputs | cyclo/make/rc.py:128-169 | The loop over `out` writes the files that `AssembleFrom` gives and ends with its outcome. |
| RcManifest.ResourceParser.PairLines | cyclo/make/rc.py:130-163 | One pair's lines are what `PairCode` gives. |
| RcManifest.ResourceParser.WriteFile | cyclo/make/rc.py:165-169 | Writing a file appends what `WriteText` gives: a path that cannot be created writes nothing, and a bad line leaves the file created and empty. |
| RcManifest.ResourceParser.FileLines | cyclo/make/rc.py:198-201 | The continuation lines of one pair. |
| RcManifest.ResourceParser.GenDeps | cyclo/make/rc.py:194-208 | `gen_deps` writes the dependency entries of every pair, joined by newlines. |
| RcManifest.RunCompiler | cyclo/make/rc.py:210-228 | The main block gives what `Run` says: parse, then write the dependency file when `-E` names one. |

## Left out

- Input and output: the serial port, the terminal, the OLED bus and the files of the host simulation become state or parameters. The EEPROM image saved to `/tmp/eeprom.bin` (cyclo/src/simulation/src/nvm.cpp:36-70) is not modelled: the model never loads the memory from that file or saves it there.
- Threads, the clock and the operating system queue: `LogQueue` models one push and one pop at a time. It does not model the lock, the worker thread or the timestamps.
- Formatted output: `vsnprintf` and `printf` formatting are modelled by their result text. `LoggerStrings.PrintedText` takes the already formatted text as its input.
- CRC: the CRC-16 routine of `program_manager.cpp` is a parameter (`checksum`). A record is valid when the stored value equals that function of its data.
- `rc.py`: PIL image decoding, JSON decoding and file access are `Host` parameters. Its `print` output, `argparse` handling and image modes other than 8-bit grey are left out.
- `rc.py`: a width that is not a multiple of 8 makes PIL raise an uncaught `IndexError` in the source. The model reports it as an error instead.
- `rc.py`: the source writes the files of earlier output pairs before a later pair fails. The model does the same, so a failed run can leave partial output.
- `rc.py`: a width or a height of 0 strips the `{` of the header line, as written.
- RcManifest.ResourceParser.WriteFile: a `src` path that is not a string is an uncaught `TypeError` with nothing written. `open` at `rc.py:165` also takes a JSON integer or `true` as a file descriptor. With `"src": 1` (or `true`) the source is written to standard output and descriptor 1 is closed. The header is still written, `gen_deps` prints the number, and the run exits with 0. Descriptors, their closing and their reuse by later `open` calls are not modelled. A descriptor that is not open or a negative number still fails uncaught with nothing written, as in the model.
- RcManifest.WriteText: refuses every non-string path, for the reason given for `WriteFile`.
- RcManifest.ParseReady: "every pair has string paths" holds of the model only; in the source a successful parse can also leave an integer or boolean `src`, as described for `WriteFile`.
- RcManifest.ResourceParser.constructor: ends with an uncaught error where the source writes through a file descriptor, as described for `WriteFile`.
- RcManifest.RunCompiler: exits with 1 where the source writes through a file descriptor and exits with 0, as described for `WriteFile`.
- `ssd1306_print` and `ssd1306_set_display_start_line_address`, which does nothing in the simulation, are not modelled.
- Ssd1306.Display.WriteData: requires the position to lie inside the 16 by 128 frame buffer. The setters mask the page to 4 bits and the column to 7, so the source leaves the buffer only through an advance: one that takes the page from 15 to 16, or one that takes a column set at 17 or above past 127, since the wrap at column 16 never fires there.
- Ssd1306.Display.ReadData: requires the position to lie inside the frame buffer, for the same reason as `WriteData`.
- UiModel.UIModel.constructor: requires slot 0 to hold at least two commands when it is occupied. The source calls `pgm.at(0)` and `pgm.at(1)`, which fail on a shorter program. On an erased EEPROM this is what happens: `program_manager.cpp:67-69` marks slot 0 occupied whatever it holds, so slot 0's erased bytes parse to an empty program (`UiModel.ErasedSlotZeroParsesEmpty`) and the source's `pgm.at(0)` fails.
- CommandParser.Parser.SafeInsert: `parser.cpp:109` reads `live_.back()` before checking that the program is empty, so the first insertion reads the back of an empty vector, which is undefined. `SafeInsertSpec` reads the last item only when there is one, and treats an empty program as not ending in a loop.
- Console.ConsoleServer.DoHistory: stepping down from the newest history entry moves the position to `history_buffer.end()`, which `console_server.hpp:396` then dereferences, which is undefined. `Show` gives an empty line there.
- LoggerFilters.Logger.FilterTrace: when a used slot's pattern holds `*`, the deciding slot is only said to match the domain. `wildcmp`'s score with `*` is not characterised, so the best-match rule is proved for star-free tables only.
- The UI views: all drawing on the display is left out. The `program_selection` and `mode_manual` sub-machines of `ui_controller.hpp` are not modelled.
- `stop`, `resume` and `set_autostart` of `program_manager.cpp` are left out. The first two only publish a message, and the last has an empty body.
- Keypad: the cycle counts come from floating-point expressions of `conf_keypad.h`, which is not part of this model. They are fixed at 4, 70 and 80 cycles for a 10 ms period, with three keys.
- LoggerStrings.PrintedText: `_log_printf` trims an over-long text with a write past its buffer. The model keeps only what lands in the buffer.
- CommandParser: `parser.cpp:195` calls `get_program_number()` without an argument. The model reads that call as a check of the current token.
- CommandParser: `save 0` and `delete 0` are accepted although the error text says 1 to 9, and `auto` returns quit. Both are modelled as written.
- ProgramManagerModel: the manager's parser is built with an error string of capacity 0, so its error texts are empty. `CommandParser` takes the capacity as a parameter.
- Console: after a CR, every LF that follows is skipped until another character arrives. After an LF the skip character becomes NUL. Both are modelled as written.
- UiController: the setup bounds are on minutes 99, on seconds 59, off minutes 59 and off seconds 99, modelled as written.

## Findings

| source | as written | input that shows it | evidently intended | confidence | as-written member | corrected member |
|---|---|---|---|---|---|---|
| cyclo/src/include/console_server.hpp:110-115 | `reset()` clears the line but not the cursor | type `ab`, then reset: the cursor is 2 on an empty line | the cursor returns to 0 | not executed | Console.ResetAsWrittenLosesCursor | Console.ResetEditor |
| template_tests/src/keypad.cpp:175 | `mask &= key_masks` overwrites the key's code | register up (mask 1), then down (mask 2): up's code becomes 0 | test `mask & key_masks` and keep the code | not executed | Keypad.RegisterAsWrittenLosesKeys | Keypad.RegisterInTurn |
| cyclo/src/simulation/src/sim.cpp:247 | the same `&=` in the simulated keypad | the same two registrations | the same test without assignment | not executed | Keypad.RegisterAsWrittenLosesKeys | SimPorts.SimKeypad.RegisterCallback |
| template_tests/src/logger/src/logger_common.c:1337-1356 | the removal loop indexes characters of slot 0 | a list `a`, `b`, removing `b`: nothing is removed | search the slots and move the last used name into the gap | not executed | LoggerFilters.RemovedAsWrittenMisses | LoggerFilters.RemovedTakesOne |
| template_tests/src/logger/src/logger_common.c:1679-1680 | names are copied with `maxNameLength - 1` as the size | a name of the largest stored length comes back one character short | copy up to `maxNameLength - 1` characters | not executed | LoggerFilters.LevelsAsWrittenCutsName | LoggerFilters.DomainLevelsReadBack |
| template_tests/src/logger/src/logger_common.c:1179-1186 | the ellipsis is added only when the text is longer than the buffer | a text of exactly `sizeof(_log_buffer)` characters is cut without the ellipsis | every cut text ends with the ellipsis | not executed | LoggerStrings.PrintedTextAsWrittenCutsSilently | LoggerStrings.PrintedText |
| cyclo/src/include/program_manager.hpp:136-139 | `pgm_at` multiplies by `60 / 32`, which is 1 | slot 1 is read from the second page of slot 0's record | two pages per slot | not executed | ProgramManagerModel.PgmAtAsWrittenOverlaps | ProgramManagerModel.OtherSlotsKept |
| cyclo/src/program_manager.cpp:136-157 | `write_pgm_at` sets the bit of the doubled position | writing slot 1 marks slot 2; writing slot 5 marks nothing | set the slot's own bit | not executed | ProgramManagerModel.MarkWrittenAsWrittenMisses | ProgramManagerModel.ProgramManager.WritePgmAt |
| cyclo/src/program_manager.cpp:214 | `etl::copy` into the active program without resizing it | load `open 1s` over the default program: the old `close` and `loop` remain | the active program becomes `pgm` | not executed | ProgramManagerModel.CopyOverAsWrittenDiffers | ProgramManagerModel.ProgramManager.LoadProgram |
