# ardeck-studio, modelled in Dafny

Ardeck Studio is a desktop application for Ardeck, a small serial-port button and knob
box. A device sends switch frames of the form `A D <payload> E C`. The payload is one
byte for a digital switch and two bytes for an analog one. The application does the
following with them:

- it decodes the frames into switch events;
- it passes on only the events whose state differs from the last one recorded for that switch;
- it looks up the plugin actions mapped to each switch in the stored mapping presets;
- it keeps device profiles and a cache of settings files;
- it tracks open serial ports;
- its web front end formats colour themes and makes random ids.

This project models those parts and proves properties about them:

- The current frame decoder, `ActionDataParser`, is in `switch_info.rs`. It is modelled in
  `switch_parser.dfy`, on top of the bit layout in `switch.dfy`.
- The decoder's change detector is modelled in `switch_compare.dfy`.
- The action router is modelled in `action_router.dfy`.
- The settings cache is modelled in `settings_cache.dfy`.
- The preset and profile commands are modelled in `settings_commands.dfy`.
- The plugin registry is modelled in `plugins.dfy`.
- The serial-port commands are modelled in `ardeck_commands.dfy`.
- The earlier frame decoders, still in the tree, are modelled in `legacy_ardeck_data.dfy`
  and `legacy_serial_data.dfy`.
- The earlier action comparator is modelled in `legacy_action_compare.dfy`.
- The theme formatting of `WindowTheme.tsx` is modelled in `window_theme.dfy`.
- The random strings of `props.ts` are modelled in `props.dfy`.

Each object that the source updates in place is a Dafny `class`, with the same fields. Its
methods are proved against a pure function of a snapshot of those fields. The properties
are proved as lemmas about that function.

Boxed closures are represented by their identity, a `HandlerId`. Calling one appends an
entry to a shared `Trace`, so the order and number of callback invocations can be
observed. Nothing outside the program is modelled; it comes in as a parameter instead:

- the clock (`Utc::now`, `Date.now`) is a parameter `now`;
- `Uuid::new_v4` is a parameter `freshUuid`;
- `Math.random` is a sequence of draws, each in [0, 1);
- the port enumeration is a list of ports;
- a settings file load is an `Option` of its records.

## Model

| member | source | states |
|---|---|---|
| Common.Utf8Char | src-tauri/src/ardeck_studio/switch_info.rs:200 | a single byte is valid UTF-8 exactly when it is below 0x80, and then it is the character with that code |
| Common.Msg | src-tauri/src/ardeck_studio/switch_info.rs:200 | the string a byte decodes to is that one character for an ASCII byte and empty otherwise |
| Common.Calls | src-tauri/src/ardeck_studio/switch_info.rs:345-353 | calling every registered handler gives one call per handler, in registration order, each with the same argument |
| Common.CallsPrefix | src-tauri/src/ardeck_studio/switch_info.rs:345-353 | calling one more handler appends exactly its call |
| Switch.TypeOfFirstByte | src-tauri/src/ardeck_studio/switch_info.rs:236-240 | the top bit of the first payload byte decides the kind: Analog exactly when it is set, never Unknown |
| Switch.TypeBitLayout | src-tauri/src/ardeck_studio/switch_info.rs:236-240 | the numeric decision equals the source's `(b & 0x80) >> 7` on bytes |
| Switch.DigitalBitLayout | src-tauri/src/ardeck_studio/switch_info.rs:175-178 | digital id and state equal `(b0 & 0x7E) >> 1` and `b0 & 1` |
| Switch.AnalogIdBitLayout | src-tauri/src/ardeck_studio/switch_info.rs:179-180 | analog id equals `(b0 & 0x7C) >> 2` |
| Switch.AnalogStateBitLayout | src-tauri/src/ardeck_studio/switch_info.rs:181 | analog state equals `((b0 & 3) << 8) \| b1` on 16 bits |
| Switch.MaskShiftDigitalId | src-tauri/src/ardeck_studio/switch_info.rs:176 | `(b0 & 0x7E) >> 1` is the byte's value modulo 128, halved |
| Switch.MaskDigitalState | src-tauri/src/ardeck_studio/switch_info.rs:177 | `b0 & 1` is the byte's value modulo 2 |
| Switch.MaskShiftAnalogId | src-tauri/src/ardeck_studio/switch_info.rs:180 | `(b0 & 0x7C) >> 2` is the byte's value modulo 128, divided by 4 |
| Switch.DigitalId | src-tauri/src/ardeck_studio/switch_info.rs:176 | a decoded digital id is at most 63 |
| Switch.DigitalState | src-tauri/src/ardeck_studio/switch_info.rs:177 | a decoded digital state is 0 or 1 |
| Switch.AnalogId | src-tauri/src/ardeck_studio/switch_info.rs:180 | a decoded analog id is at most 31 |
| Switch.AnalogState | src-tauri/src/ardeck_studio/switch_info.rs:181 | a decoded analog state is at most 1023 |
| Switch.EncodeDigital | src-tauri/src/ardeck_studio/switch_info.rs:175-178 | a digital payload byte built from an id and state has its top bit clear |
| Switch.EncodeAnalog | src-tauri/src/ardeck_studio/switch_info.rs:179-182 | an analog payload built from an id and state has its top bit set |
| Switch.DigitalDecodeEncode | src-tauri/src/ardeck_studio/switch_info.rs:175-178 | re-encoding a decoded digital byte gives the byte back |
| Switch.DigitalEncodeDecode | src-tauri/src/ardeck_studio/switch_info.rs:175-178 | decoding an encoded digital id and state gives them back |
| Switch.AnalogDecodeEncode | src-tauri/src/ardeck_studio/switch_info.rs:179-182 | re-encoding a decoded analog payload gives both bytes back |
| Switch.AnalogEncodeDecode | src-tauri/src/ardeck_studio/switch_info.rs:179-182 | decoding an encoded analog id and state gives them back |
| SwitchParser.AsI8 | src-tauri/src/ardeck_studio/switch_info.rs:300 | the `as i8` cast gives a value in [-128, 128) congruent to its input modulo 256 |
| SwitchParser.AsI8Small | src-tauri/src/ardeck_studio/switch_info.rs:300 | below 128 the `as i8` comparison is plain equality |
| SwitchParser.InitialValid | src-tauri/src/ardeck_studio/switch_info.rs:115-131 | the state `new` builds satisfies the parser invariant |
| SwitchParser.Started | src-tauri/src/ardeck_studio/switch_info.rs:204-213 | a start leaves the parser reading, with header "A" and no payload |
| SwitchParser.CollectFacts | src-tauri/src/ardeck_studio/switch_info.rs:200-293 | the collecting stages: an idle `A` starts a frame, other idle bytes change nothing, and while reading `D`/`E`/`C` are appended to the header and the payload is collected |
| SwitchParser.ParserState.Collect | src-tauri/src/ardeck_studio/switch_info.rs:200-293 | the five collecting stages of `put_challenge`, in source order; their effect is stated case by case in `CollectFacts`, `PayloadFacts` and `CollectReady` |
| SwitchParser.ParserState.Check | src-tauri/src/ardeck_studio/switch_info.rs:295-326 | the closing stage: four letters or a count past 5 end the frame, accepted when the header is "ADEC" and the `i8` casts of count and data length agree; its outcome is stated in `StepEmits` and `StepPreservesInv` |
| SwitchParser.ParserState.Step | src-tauri/src/ardeck_studio/switch_info.rs:196-327 | one `put_challenge`: collecting, then closing; when it emits and what it keeps are stated in `StepEmits` and `StepPreservesInv` |
| SwitchParser.PayloadFacts | src-tauri/src/ardeck_studio/switch_info.rs:225-276 | bytes at counts 2 and 3 are the payload: the first fixes the kind and data length, an analog frame keeps the second, and no other byte touches the payload |
| SwitchParser.CollectReady | src-tauri/src/ardeck_studio/switch_info.rs:296-300 | after collecting, the counter can be raised without overflow and a header of "ADEC" with a matching count has a payload to format |
| SwitchParser.StepPreservesInv | src-tauri/src/ardeck_studio/switch_info.rs:196-327 | every byte keeps the invariant: header ≤ 4 letters, count ≤ 6, idle implies count 0, so the `u8` never overflows |
| SwitchParser.StepEmits | src-tauri/src/ardeck_studio/switch_info.rs:296-318 | a byte completes a frame exactly when the parser is reading, the byte is `C`, the header is "ADE" and the count reaches the data length; the event carries the decoded payload, is never Unknown, and the parser stops reading |
| SwitchParser.IdleByteIgnored | src-tauri/src/ardeck_studio/switch_info.rs:204-326 | while idle, any byte other than `A` changes nothing and emits nothing |
| SwitchParser.StartResets | src-tauri/src/ardeck_studio/switch_info.rs:204-213 | an idle `A` clears flags and buffers and starts a frame with header "A" and count 1 |
| SwitchParser.ReadingIgnoresStart | src-tauri/src/ardeck_studio/switch_info.rs:204 | an `A` in the middle of a frame does not restart it |
| SwitchParser.ReadingAdvances | src-tauri/src/ardeck_studio/switch_info.rs:296-326 | each byte of a frame raises the count by one, at most to 6, unless the frame ends |
| SwitchParser.Emitted | src-tauri/src/ardeck_studio/switch_info.rs:307 | one step emits at most one event |
| SwitchParser.Feed | src-tauri/src/ardeck_studio/switch_info.rs:329-331 | feeding a byte stream keeps the invariant |
| SwitchParser.FeedAppend | src-tauri/src/ardeck_studio/switch_info.rs:329-331 | feeding two streams in turn is feeding their concatenation |
| SwitchParser.FeedAppendState | src-tauri/src/ardeck_studio/switch_info.rs:329-331 | feeding two streams in turn ends where feeding their concatenation ends |
| SwitchParser.FeedAppendFirst | src-tauri/src/ardeck_studio/switch_info.rs:329-331 | the first byte of a concatenation is decoded first |
| SwitchParser.FeedFirst | src-tauri/src/ardeck_studio/switch_info.rs:329-331 | feeding a non-empty stream is one step and then the rest |
| SwitchParser.FeedOne | src-tauri/src/ardeck_studio/switch_info.rs:329-331 | feeding one byte is one step |
| SwitchParser.FeedCons | src-tauri/src/ardeck_studio/switch_info.rs:329-331 | feeding a byte and then a stream is feeding them together |
| SwitchParser.FrameOpening | src-tauri/src/ardeck_studio/switch_info.rs:204-222 | `A D` from idle opens a frame with header "AD", count 2 and an empty payload |
| SwitchParser.MidFrameStep | src-tauri/src/ardeck_studio/switch_info.rs:216-326 | a byte that does not fill the header advances the count, appends its letter if it is one, and emits nothing |
| SwitchParser.DigitalBodySteps | src-tauri/src/ardeck_studio/switch_info.rs:233-309 | after `A D`, a digital payload byte then `E C` emits the decoded digital event on the `C` |
| SwitchParser.AnalogBodySteps | src-tauri/src/ardeck_studio/switch_info.rs:233-309 | after `A D`, two analog payload bytes then `E C` emit the decoded analog event on the `C` |
| SwitchParser.FeedTwo | src-tauri/src/ardeck_studio/switch_info.rs:329-331 | feeding two bytes is two steps |
| SwitchParser.FeedThree | src-tauri/src/ardeck_studio/switch_info.rs:329-331 | feeding three bytes is three steps |
| SwitchParser.FeedFour | src-tauri/src/ardeck_studio/switch_info.rs:329-331 | feeding four bytes is four steps |
| SwitchParser.DigitalFrameDecoded | src-tauri/src/ardeck_studio/switch_info.rs:204-309 | `A D b0 E C` from idle, with `b0 < 0x80` and not a letter, emits exactly the digital event of `b0` |
| SwitchParser.AnalogFrameDecoded | src-tauri/src/ardeck_studio/switch_info.rs:204-309 | `A D b0 b1 E C` from idle, with `b0 ≥ 0x80` and `b1` not a letter, emits exactly the analog event of `b0 b1` |
| SwitchParser.DigitalEventDelivered | src-tauri/src/ardeck_studio/switch_info.rs:175-178 | every digital id and state whose payload byte is not a letter arrives unchanged |
| SwitchParser.AnalogEventDelivered | src-tauri/src/ardeck_studio/switch_info.rs:179-182 | every analog id and state whose low byte is not a letter arrives unchanged |
| SwitchParser.FourthLetterEnds | src-tauri/src/ardeck_studio/switch_info.rs:296-318 | a fourth header letter always ends the frame |
| SwitchParser.LetterPayloadDropsDigitalFrame | src-tauri/src/ardeck_studio/switch_info.rs:216-222 | a digital payload byte equal to `D`, `E` or `C` is taken as a header letter and the frame is lost; this concerns ids 33 and 34 |
| SwitchParser.LetterPayloadDropsAnalogFrame | src-tauri/src/ardeck_studio/switch_info.rs:279-293 | an analog second byte equal to `D`, `E` or `C` loses the frame |
| SwitchParser.NoiseEndsFrame | src-tauri/src/ardeck_studio/switch_info.rs:296 | a run of bytes without `A` long enough always returns the parser to idle (the `read_count > 5` cut-off) |
| SwitchParser.FrameAfterNoise | src-tauri/src/ardeck_studio/switch_info.rs:204-309 | after at least six bytes of noise without `A`, a digital frame is decoded as from idle |
| SwitchParser.NoEventWithoutC | src-tauri/src/ardeck_studio/switch_info.rs:287-309 | no event is emitted from a stream without a `C` |
| SwitchParser.StretchedFrameDropped | src-tauri/src/ardeck_studio/switch_info.rs:296 | a digital frame with four or more extra bytes between payload and trailer emits nothing |
| SwitchParser.ActionDataParser.constructor | src-tauri/src/ardeck_studio/switch_info.rs:115-131 | `new`: idle parser, empty buffers and handler lists, complete count 0 |
| SwitchParser.ActionDataParser.DataOfDigitalSwitch | src-tauri/src/ardeck_studio/switch_info.rs:133-136 | sets the data length of a digital frame |
| SwitchParser.ActionDataParser.DataOfAnalogSwitch | src-tauri/src/ardeck_studio/switch_info.rs:138-141 | sets the data length of an analog frame |
| SwitchParser.ActionDataParser.CountupRead | src-tauri/src/ardeck_studio/switch_info.rs:143-146 | raises the read count by one |
| SwitchParser.ActionDataParser.CountupComplete | src-tauri/src/ardeck_studio/switch_info.rs:148-150 | raises the complete count by one and changes nothing else |
| SwitchParser.ActionDataParser.ClearFlagCount | src-tauri/src/ardeck_studio/switch_info.rs:152-156 | clears the reading flag, count and collect flag |
| SwitchParser.ActionDataParser.ClearBuf | src-tauri/src/ardeck_studio/switch_info.rs:158-162 | clears the header, the event buffer and the raw payload |
| SwitchParser.ActionDataParser.FormatSwitchData | src-tauri/src/ardeck_studio/switch_info.rs:168-194 | stores the decoded id, state and timestamp in the event buffer |
| SwitchParser.ActionDataParser.PutChallenge | src-tauri/src/ardeck_studio/switch_info.rs:196-327 | one byte: the new state is the step function's; `true` exactly when an event is emitted; then the change detector runs first, every `on_complete` handler is called once in order, and the complete count rises by one |
| SwitchParser.ActionDataParser.CollectStages | src-tauri/src/ardeck_studio/switch_info.rs:200-293 | the collecting part of `put_challenge` |
| SwitchParser.ActionDataParser.CollectPayload | src-tauri/src/ardeck_studio/switch_info.rs:225-276 | the payload part of `put_challenge` |
| SwitchParser.ActionDataParser.PutData | src-tauri/src/ardeck_studio/switch_info.rs:329-331 | only the first byte of a chunk is decoded |
| SwitchParser.ActionDataParser.OnComplete | src-tauri/src/ardeck_studio/switch_info.rs:333-335 | registers a handler after the existing ones |
| SwitchParser.ActionDataParser.OnChangeAction | src-tauri/src/ardeck_studio/switch_info.rs:337-339 | registers a change handler with the detector |
| SwitchParser.ActionDataParser.OnCompleteEmitAll | src-tauri/src/ardeck_studio/switch_info.rs:341-355 | counts the event, passes it to the detector, then calls every handler once in order |
| SwitchParser.ActionDataParser.CallCompleteHandlers | src-tauri/src/ardeck_studio/switch_info.rs:346-354 | every `on_complete` handler is called once, in registration order |
| SwitchCompare.Record | src-tauri/src/ardeck_studio/switch_info/compare.rs:51-64 | the record after an event: it holds the id afterwards with the event's state; a change replaces the entry, a repeat leaves the record as it was, other ids are untouched |
| SwitchCompare.OfId | src-tauri/src/ardeck_studio/switch_info/compare.rs:51-64 | the events of one switch form a subsequence of the input |
| SwitchCompare.OfIdAppend | src-tauri/src/ardeck_studio/switch_info/compare.rs:51-64 | selecting one switch's events distributes over concatenation |
| SwitchCompare.ChangesAlternate | src-tauri/src/ardeck_studio/switch_info/compare.rs:51-64 | for every switch, the events passed on, after the recorded one, never repeat a state twice in a row |
| SwitchCompare.IsChange | src-tauri/src/ardeck_studio/switch_info/compare.rs:51-62 | an event is a change when its id has no record or its state differs from the recorded one; the switch type plays no part; `Record` and `ActionCompare.Compare` are stated through it |
| SwitchCompare.Changes | src-tauri/src/ardeck_studio/switch_info/compare.rs:51-64 | the events passed on for a stream, in order; `ChangesAlternate`, `AlternatingAllPassed` and `RepeatSuppressed` state what it keeps |
| SwitchCompare.AlternatingAllPassed | src-tauri/src/ardeck_studio/switch_info/compare.rs:51-64 | a stream for one switch whose states already alternate is passed on whole |
| SwitchCompare.ChangesRecorded | src-tauri/src/ardeck_studio/switch_info/compare.rs:51-64 | every id seen is recorded, and only input events are passed on |
| SwitchCompare.RepeatSuppressed | src-tauri/src/ardeck_studio/switch_info/compare.rs:52-57 | a second event with the same state is not passed on; the first event of a fresh detector always is |
| SwitchCompare.ActionCompare.constructor | src-tauri/src/ardeck_studio/switch_info/compare.rs:31-37 | `new`: empty maps and no callbacks |
| SwitchCompare.ActionCompare.PutAction | src-tauri/src/ardeck_studio/switch_info/compare.rs:39-49 | forwards to `compare`; the `actions` map is never written |
| SwitchCompare.ActionCompare.Compare | src-tauri/src/ardeck_studio/switch_info/compare.rs:51-64 | a new id or a changed state calls every callback once and is recorded; a repeat does nothing |
| SwitchCompare.ActionCompare.OnChangeAction | src-tauri/src/ardeck_studio/switch_info/compare.rs:66-68 | appends a callback |
| SwitchCompare.ActionCompare.OnChangeActionEmitAll | src-tauri/src/ardeck_studio/switch_info/compare.rs:70-74 | calls every callback once, in registration order |
| ActionRouter.TargetsOfAppend | src-tauri/src/ardeck_studio/action.rs:69-78 | the targets of two lists of mappings are the targets of each, in order |
| ActionRouter.AllTargetsFlatten | src-tauri/src/ardeck_studio/action.rs:68-79 | searching preset by preset is searching the concatenation of all their mappings |
| ActionRouter.TargetsOfMembership | src-tauri/src/ardeck_studio/action.rs:70-76 | a target is returned exactly when some mapping with the switch's kind and id names it |
| ActionRouter.TargetsOf | src-tauri/src/ardeck_studio/action.rs:69-77 | the targets of one preset's matching entries, in entry order; `TargetsOfMembership` and `TargetsOfCount` state which and how many |
| ActionRouter.AllTargets | src-tauri/src/ardeck_studio/action.rs:68-79 | the targets of all presets, preset by preset; `AllTargetsFlatten` ties it to the flat list of entries |
| ActionRouter.MatchCountAppend | src-tauri/src/ardeck_studio/action.rs:68-79 | the number of matching mappings adds up over concatenation |
| ActionRouter.TargetsOfCount | src-tauri/src/ardeck_studio/action.rs:68-79 | one target per matching mapping, duplicates kept |
| ActionRouter.StateAndTimeIrrelevant | src-tauri/src/ardeck_studio/action.rs:70-71 | the targets do not depend on the switch's state or timestamp |
| ActionRouter.TargetsOfSame | src-tauri/src/ardeck_studio/action.rs:70-71 | two switches with the same kind and id get the same targets |
| ActionRouter.SearchActionTarget | src-tauri/src/ardeck_studio/action.rs:59-82 | a failed preset load gives no targets; otherwise every matching mapping's target, in preset and mapping order |
| ActionRouter.FromSwitchInfo | src-tauri/src/ardeck_studio/action.rs:39-56 | one action per target, in order, each pairing the switch with that target |
| SettingsCache.FindFirst | src-tauri/src/ardeck_studio/settings/cache.rs:46 | `find` gives the first entry with the path, or none when no entry has it |
| SettingsCache.AnyDirty | src-tauri/src/ardeck_studio/settings/cache.rs:39-41 | `is_dirty` holds exactly when some entry for the path is dirty |
| SettingsCache.Lookup | src-tauri/src/ardeck_studio/settings/cache.rs:63-65 | `get` returns the first entry with the path, or none exactly when no entry has it |
| SettingsCache.SetFlag | src-tauri/src/ardeck_studio/settings/cache.rs:43-48 | only the first entry for the path gets the new flag; the length and every other entry are kept |
| SettingsCache.Refresh | src-tauri/src/ardeck_studio/settings/cache.rs:82-90 | only the first entry for the path gets the new data and is marked clean |
| SettingsCache.Without | src-tauri/src/ardeck_studio/settings/cache.rs:57-59 | `retain` keeps exactly the entries of other paths |
| SettingsCache.WithoutAppend | src-tauri/src/ardeck_studio/settings/cache.rs:57-59 | removal distributes over concatenation, keeping order |
| SettingsCache.OtherPathsUnchanged | src-tauri/src/ardeck_studio/settings/cache.rs:43-90 | setting a flag, refreshing or removing one path leaves every other path's answers as they were |
| SettingsCache.SamePositions | src-tauri/src/ardeck_studio/settings/cache.rs:43-90 | changing only entries of one path does not move the first entry of any other path |
| SettingsCache.SamePaths | src-tauri/src/ardeck_studio/settings/cache.rs:46 | the first position of a path depends only on the entries' paths |
| SettingsCache.WithoutOtherPath | src-tauri/src/ardeck_studio/settings/cache.rs:57-59 | removing one path does not change what is found for another |
| SettingsCache.FindFirstSnoc | src-tauri/src/ardeck_studio/settings/cache.rs:74-80 | an entry pushed at the end is found only if no earlier entry has its path |
| SettingsCache.LookupSnoc | src-tauri/src/ardeck_studio/settings/cache.rs:74-80 | `get` after a push: an earlier entry wins over the new one |
| SettingsCache.MarkDirtyEffect | src-tauri/src/ardeck_studio/settings/cache.rs:50-55 | after `mark_dirty` the path is dirty exactly when it was cached, and `get` returns it marked dirty |
| SettingsCache.UpdateDataEffect | src-tauri/src/ardeck_studio/settings/cache.rs:82-90 | after `update_data` a cached path reads back clean with the new data; an uncached path changes nothing |
| SettingsCache.DuplicateStaysDirty | src-tauri/src/ardeck_studio/settings/cache.rs:39-41 | with two entries for one path, `update_data` leaves the path dirty |
| SettingsCache.AddIsShadowed | src-tauri/src/ardeck_studio/settings/cache.rs:74-80 | adding a path that is already cached does not change what `get` returns |
| SettingsCache.RemoveEffect | src-tauri/src/ardeck_studio/settings/cache.rs:57-59 | after `remove` the path is neither found nor dirty |
| SettingsCache.Cache.constructor | src-tauri/src/ardeck_studio/settings/cache.rs:35-37 | `new`: an empty cache |
| SettingsCache.Cache.GetData | src-tauri/src/ardeck_studio/settings/cache.rs:67-72 | the data of the entry `get` finds, or none |
| SettingsCache.Cache.Get | src-tauri/src/ardeck_studio/settings/cache.rs:63-65 | none exactly when no entry has the path; otherwise the first entry with the path |
| SettingsCache.Cache.IsDirty | src-tauri/src/ardeck_studio/settings/cache.rs:39-41 | true exactly when some cached entry with the path is dirty, so false for an absent path |
| SettingsCache.Cache.Position | src-tauri/src/ardeck_studio/settings/cache.rs:44-46 | the search loop finds the first entry for the path |
| SettingsCache.Cache.SetDirty | src-tauri/src/ardeck_studio/settings/cache.rs:43-48 | the entries become `SetFlag` of the old ones |
| SettingsCache.Cache.MarkDirty | src-tauri/src/ardeck_studio/settings/cache.rs:50-55 | the entries become `SetFlag` of the old ones with the flag set |
| SettingsCache.Cache.Remove | src-tauri/src/ardeck_studio/settings/cache.rs:57-59 | the entries become `Without` of the old ones |
| SettingsCache.Cache.Add | src-tauri/src/ardeck_studio/settings/cache.rs:74-80 | pushes one entry at the end |
| SettingsCache.Cache.UpdateData | src-tauri/src/ardeck_studio/settings/cache.rs:82-90 | the entries become `Refresh` of the old ones |
| SettingsCommands.FirstIndex | src-tauri/src/ardeck_studio/settings/tauri.rs:96-98 | `position` gives the first index with the key, or none when no record has it |
| SettingsCommands.Find | src-tauri/src/ardeck_studio/settings/tauri.rs:71-80 | the early-return search gives the first record with the key, or none exactly when no record has it |
| SettingsCommands.FindIndex | src-tauri/src/ardeck_studio/settings/tauri.rs:96-98 | the search loop computes the first index |
| SettingsCommands.FirstIndexAgree | src-tauri/src/ardeck_studio/settings/tauri.rs:96-98 | the first index depends only on where the key occurs |
| SettingsCommands.ReplaceFound | src-tauri/src/ardeck_studio/settings/tauri.rs:101-102 | overwriting the found record makes it the answer for its key and changes no other answer |
| SettingsCommands.AppendFound | src-tauri/src/ardeck_studio/settings/tauri.rs:110-114 | pushing a record with a new key makes it the answer for that key only |
| SettingsCommands.AppendOther | src-tauri/src/ardeck_studio/settings/tauri.rs:110-114 | pushing a record does not move the first index of another key |
| SettingsCommands.UpsertFound | src-tauri/src/ardeck_studio/settings/tauri.rs:178-187 | after replace-or-push the record is found under its key and other keys are unchanged; the list grows only for a new key |
| SettingsCommands.Upsert | src-tauri/src/ardeck_studio/settings/tauri.rs:178-187 | replace the first record with the key, or push the record; `UpsertFound` states the result |
| SettingsCommands.ListedIsFound | src-tauri/src/ardeck_studio/settings/tauri.rs:96-98 | every stored key is found, at or before its position |
| SettingsCommands.MappingList | src-tauri/src/ardeck_studio/settings/tauri.rs:44-57 | a failed load panics; otherwise one `(uuid, name)` pair per preset, in order |
| SettingsCommands.GetMappingPreset | src-tauri/src/ardeck_studio/settings/tauri.rs:61-81 | a failed load panics; otherwise the first preset with the uuid, or none |
| SettingsCommands.SaveMappingPreset | src-tauri/src/ardeck_studio/settings/tauri.rs:85-124 | a known uuid is overwritten in place; an unknown one gets a fresh uuid and is appended; the stored preset is returned |
| SettingsCommands.SavedPresetFound | src-tauri/src/ardeck_studio/settings/tauri.rs:85-124 | after saving, the preset is found under the uuid it was stored with, and other uuids are unchanged, provided a fresh uuid does not collide |
| SettingsCommands.FreshCollisionShadowed | src-tauri/src/ardeck_studio/settings/tauri.rs:110-114 | if the fresh uuid collides with a stored one, the new preset is unreachable by uuid |
| SettingsCommands.AppendPresent | src-tauri/src/ardeck_studio/settings/tauri.rs:110-114 | appending a record does not move the first index of a key already present |
| SettingsCommands.ListedPresetFound | src-tauri/src/ardeck_studio/settings/tauri.rs:44-81 | every uuid in the list can be fetched |
| SettingsCommands.ProfileList | src-tauri/src/ardeck_studio/settings/tauri.rs:131-148 | a failed load is an error message; otherwise one `(device id, name)` pair per profile, in order |
| SettingsCommands.GetArdeckProfile | src-tauri/src/ardeck_studio/settings/tauri.rs:151-169 | a failed load or an unknown id is an error; otherwise the first profile with the id, and an `Ok` answer always has that id |
| SettingsCommands.SaveArdeckProfile | src-tauri/src/ardeck_studio/settings/tauri.rs:172-192 | a failed load panics; otherwise the profile replaces the one with its id or is appended, and is returned |
| SettingsCommands.SavedProfileFound | src-tauri/src/ardeck_studio/settings/tauri.rs:172-192 | after saving, the profile is found under its id and other ids are unchanged |
| Plugins.Lookup | src-tauri/src/ardeck_studio/plugin/manager.rs:50-52 | `get` finds a plugin exactly when its id is registered |
| Plugins.AddFound | src-tauri/src/ardeck_studio/plugin/manager.rs:46-48 | after `add` the plugin is found under its manifest id; other ids are unchanged |
| Plugins.RemoveFound | src-tauri/src/ardeck_studio/plugin/manager.rs:62-64 | after `remove` the id is not found; other ids are unchanged |
| Plugins.RemoveAbsent | src-tauri/src/ardeck_studio/plugin/manager.rs:62-64 | removing an unknown id changes nothing |
| Plugins.LaterAddWins | src-tauri/src/ardeck_studio/plugin/manager.rs:46-48 | adding two plugins with the same id keeps the later |
| Plugins.AddRemoveRestores | src-tauri/src/ardeck_studio/plugin/manager.rs:46-64 | adding a new plugin and removing it restores the registry |
| Plugins.PluginManager.constructor | src-tauri/src/ardeck_studio/plugin/manager.rs:40-44 | `new`: an empty registry |
| Plugins.PluginManager.Add | src-tauri/src/ardeck_studio/plugin/manager.rs:46-48 | inserts under the manifest id |
| Plugins.PluginManager.Get | src-tauri/src/ardeck_studio/plugin/manager.rs:50-52 | a plugin exactly when the id is registered, and then the one registered under it |
| Plugins.PluginManager.GetAll | src-tauri/src/ardeck_studio/plugin/manager.rs:54-56 | the whole registry, as a value |
| Plugins.PluginManager.Remove | src-tauri/src/ardeck_studio/plugin/manager.rs:62-64 | removes the id |
| ArdeckCommands.DigitChar | src-tauri/src/ardeck_studio/ardeck/tauri.rs:40-42 | a decimal digit and its value agree |
| ArdeckCommands.Decimal | src-tauri/src/ardeck_studio/ardeck/tauri.rs:40-42 | `{}` formatting of a number gives decimal digits |
| ArdeckCommands.DecimalRoundTrip | src-tauri/src/ardeck_studio/ardeck/tauri.rs:40-42 | the decimal text of a number reads back as that number |
| ArdeckCommands.GetDeviceId | src-tauri/src/ardeck_studio/ardeck/tauri.rs:36-47 | exactly the USB ports have an id: `vid-pid-serial`, or `vid-pid` without a serial number |
| ArdeckCommands.UsbDeviceId | src-tauri/src/ardeck_studio/ardeck/tauri.rs:38-43 | `vid-pid-serial`, or `vid-pid` without a serial number; `DeviceIdRoundTrip` splits it back into its parts |
| ArdeckCommands.FirstOf | src-tauri/src/ardeck_studio/ardeck/tauri.rs:40-42 | the first occurrence of a character, or none |
| ArdeckCommands.FirstOfAfter | src-tauri/src/ardeck_studio/ardeck/tauri.rs:40-42 | the separator after a run of digits is the first one |
| ArdeckCommands.DeviceIdRoundTrip | src-tauri/src/ardeck_studio/ardeck/tauri.rs:36-47 | a device id splits back into its vendor id, product id and serial number |
| ArdeckCommands.DeviceIdInjective | src-tauri/src/ardeck_studio/ardeck/tauri.rs:36-47 | two USB ports with the same id have the same vendor id, product id and serial number |
| ArdeckCommands.KeptPortsMembership | src-tauri/src/ardeck_studio/ardeck/tauri.rs:267-279 | a pair is listed exactly when its port is enumerated and the id is its device id |
| ArdeckCommands.KeptPortsAppend | src-tauri/src/ardeck_studio/ardeck/tauri.rs:271-276 | the listing of two port lists is the listing of each, in order |
| ArdeckCommands.GetPorts | src-tauri/src/ardeck_studio/ardeck/tauri.rs:267-279 | the loop lists exactly the ports with a device id, in enumeration order |
| ArdeckCommands.KeptPorts | src-tauri/src/ardeck_studio/ardeck/tauri.rs:267-278 | the ports that have a device id, paired with it, in order; `KeptPortsMembership` and `KeptPortsAppend` state which and in what order |
| ArdeckCommands.SerialWatch | src-tauri/src/ardeck_studio/ardeck/tauri.rs:234-263 | the watcher's announcements are those of `WatchFrom`, starting from an empty list |
| ArdeckCommands.WatchFrom | src-tauri/src/ardeck_studio/ardeck/tauri.rs:244-258 | a poll announces its listing only when it differs from the poll before; `StableSilent`, `WatchPayloads` and `ChangeReported` state this |
| ArdeckCommands.StableSilent | src-tauri/src/ardeck_studio/ardeck/tauri.rs:244 | an unchanged port list announces nothing |
| ArdeckCommands.WatchPayloads | src-tauri/src/ardeck_studio/ardeck/tauri.rs:244-258 | at most one announcement per poll, each the listing of some poll |
| ArdeckCommands.ChangeReported | src-tauri/src/ardeck_studio/ardeck/tauri.rs:244-258 | a changed port list is announced with its listing, and becomes the list compared against next |
| ArdeckCommands.Open | src-tauri/src/ardeck_studio/ardeck/tauri.rs:150-232 | an open port is refused with 501; a port missing from the enumeration panics (the `unwrap` of `get_port_info`); a device that fails to open answers 500; otherwise it succeeds and registers the port with its read loop running; every failure leaves the registry unchanged |
| ArdeckCommands.Close | src-tauri/src/ardeck_studio/ardeck/tauri.rs:132-146 | a registered port has its flag lowered; an unknown one is refused with 501 |
| ArdeckCommands.OpenTwiceRefused | src-tauri/src/ardeck_studio/ardeck/tauri.rs:158-162 | opening a port again is refused and changes nothing |
| ArdeckCommands.OpenThenClose | src-tauri/src/ardeck_studio/ardeck/tauri.rs:132-232 | a port just opened can be closed, and stays registered with its flag down |
| ArdeckCommands.ArdeckManager.constructor | src-tauri/src/ardeck_studio/ardeck/tauri.rs:32 | the registry starts empty |
| ArdeckCommands.ArdeckManager.OpenPort | src-tauri/src/ardeck_studio/ardeck/tauri.rs:150-232 | the registry and answer are those of `Open` |
| ArdeckCommands.ArdeckManager.ClosePort | src-tauri/src/ardeck_studio/ardeck/tauri.rs:132-146 | the registry and answer are those of `Close` |
| LegacyArdeckData.Countup | src-tauri/src/ardeck/ardeck_data.rs:133-136 | the read count wraps modulo 256 |
| LegacyArdeckData.AsI8Byte | src-tauri/src/ardeck/ardeck_data.rs:292 | on bytes the `as i8` comparison is plain equality |
| LegacyArdeckData.CollectFacts | src-tauri/src/ardeck/ardeck_data.rs:189-286 | an idle `A` starts a frame, other idle bytes leave the header alone, and while reading the letters `D`/`E`/`C` are appended |
| LegacyArdeckData.PayloadFacts | src-tauri/src/ardeck/ardeck_data.rs:215-270 | the bytes at counts 2 and 3 are the payload, and no other byte touches it |
| LegacyArdeckData.CollectLeavesReady | src-tauri/src/ardeck/ardeck_data.rs:288-292 | a header of "ADEC" with a matching count has a payload to format |
| LegacyArdeckData.CheckOpen | src-tauri/src/ardeck/ardeck_data.rs:288-316 | before four letters are in, the closing stage only raises the wrapped count and emits nothing |
| LegacyArdeckData.CheckCloses | src-tauri/src/ardeck/ardeck_data.rs:288-310 | with four letters in, the frame ends idle with the letters kept, and it is accepted exactly when they spell "ADEC" and the raised count equals the data length, emitting the decoded record with its raw payload |
| LegacyArdeckData.Check | src-tauri/src/ardeck/ardeck_data.rs:288-316 | the closing stage; `CheckOpen` and `CheckCloses` state its outcome |
| LegacyArdeckData.Step | src-tauri/src/ardeck/ardeck_data.rs:185-317 | one `put_challenge`; `StepEmits` and `StepKeepsInv` state when it emits and what it keeps |
| LegacyArdeckData.IdleStep | src-tauri/src/ardeck/ardeck_data.rs:185-317 | a byte while idle keeps the invariant and emits nothing |
| LegacyArdeckData.IdleOther | src-tauri/src/ardeck/ardeck_data.rs:288-316 | an idle byte other than `A` keeps the invariant and emits nothing |
| LegacyArdeckData.ReadingKeepsInv | src-tauri/src/ardeck/ardeck_data.rs:185-317 | a byte during a frame keeps the invariant |
| LegacyArdeckData.StepKeepsInv | src-tauri/src/ardeck/ardeck_data.rs:185-317 | every byte keeps the decoder's invariant |
| LegacyArdeckData.ReadingEmits | src-tauri/src/ardeck/ardeck_data.rs:288-310 | during a frame a byte completes it exactly when it is the `C` after "ADE" and the wrapped count matches; the record carries the decoded payload and the raw bytes |
| LegacyArdeckData.StepEmits | src-tauri/src/ardeck/ardeck_data.rs:288-310 | a byte completes a frame exactly when the decoder is reading, the byte is `C`, the header is "ADE" and the wrapped count reaches the data length; the record carries the decoded id and state and the raw payload |
| LegacyArdeckData.IdleCounts | src-tauri/src/ardeck/ardeck_data.rs:311-316 | idle bytes still raise the count, which wraps |
| LegacyArdeckData.StartResets | src-tauri/src/ardeck/ardeck_data.rs:194-203 | an idle `A` resets and starts a frame with count 1 |
| LegacyArdeckData.ReadingIgnoresStart | src-tauri/src/ardeck/ardeck_data.rs:194 | an `A` in a frame does not restart it |
| LegacyArdeckData.NonLetterContinues | src-tauri/src/ardeck/ardeck_data.rs:311-316 | a non-letter byte in a frame only raises the count |
| LegacyArdeckData.Emitted | src-tauri/src/ardeck/ardeck_data.rs:299 | one step emits at most one record |
| LegacyArdeckData.Feed | src-tauri/src/ardeck/ardeck_data.rs:319-322 | feeding a stream keeps the invariant |
| LegacyArdeckData.FeedAppend | src-tauri/src/ardeck/ardeck_data.rs:319-322 | feeding two streams in turn is feeding their concatenation |
| LegacyArdeckData.FeedAppendState | src-tauri/src/ardeck/ardeck_data.rs:319-322 | feeding two streams in turn ends where feeding their concatenation ends |
| LegacyArdeckData.FeedAppendFirst | src-tauri/src/ardeck/ardeck_data.rs:319-322 | the first byte of a concatenation is decoded first |
| LegacyArdeckData.FeedFirst | src-tauri/src/ardeck/ardeck_data.rs:319-322 | feeding a non-empty stream is one step and then the rest |
| LegacyArdeckData.FeedOne | src-tauri/src/ardeck/ardeck_data.rs:319-322 | feeding one byte is one step |
| LegacyArdeckData.FrameOpening | src-tauri/src/ardeck/ardeck_data.rs:194-213 | `A D` from idle opens a frame |
| LegacyArdeckData.FeedTwo | src-tauri/src/ardeck/ardeck_data.rs:319-322 | feeding two bytes is two steps |
| LegacyArdeckData.DigitalPayload | src-tauri/src/ardeck/ardeck_data.rs:215-246 | a digital payload byte is collected and fixes the data length |
| LegacyArdeckData.AnalogPayload | src-tauri/src/ardeck/ardeck_data.rs:215-265 | two analog payload bytes are collected |
| LegacyArdeckData.DigitalTrailer | src-tauri/src/ardeck/ardeck_data.rs:271-301 | `E C` after a digital payload emits its record |
| LegacyArdeckData.AnalogTrailer | src-tauri/src/ardeck/ardeck_data.rs:271-301 | `E C` after an analog payload emits its record |
| LegacyArdeckData.DigitalFrameDecoded | src-tauri/src/ardeck/ardeck_data.rs:185-317 | `A D b0 E C` from idle emits exactly the digital record of `b0` |
| LegacyArdeckData.AnalogFrameDecoded | src-tauri/src/ardeck/ardeck_data.rs:185-317 | `A D b0 b1 E C` from idle emits exactly the analog record of `b0 b1` |
| LegacyArdeckData.FillerStep | src-tauri/src/ardeck/ardeck_data.rs:311-316 | in a digital frame a non-letter byte only raises the wrapped count |
| LegacyArdeckData.WrapAdd | src-tauri/src/ardeck/ardeck_data.rs:133-136 | wrapped counting composes |
| LegacyArdeckData.CountOnThenRest | src-tauri/src/ardeck/ardeck_data.rs:133-136 | raising the wrapped count by one and then by `m` is raising it by `m + 1` |
| LegacyArdeckData.WrapWhole | src-tauri/src/ardeck/ardeck_data.rs:133-136 | raising the wrapped count by a multiple of 256 leaves it unchanged |
| LegacyArdeckData.FillerFirst | src-tauri/src/ardeck/ardeck_data.rs:311-316 | a non-letter byte at the head of a digital frame's stream only raises the count, so the rest is fed from there |
| LegacyArdeckData.FillerKeepsFrame | src-tauri/src/ardeck/ardeck_data.rs:311-316 | a run of non-letters in a digital frame leaves it open with the count raised modulo 256 |
| LegacyArdeckData.StretchedBody | src-tauri/src/ardeck/ardeck_data.rs:288-301 | a digital payload followed by a multiple of 256 filler bytes and `E C` is still emitted |
| LegacyArdeckData.StretchedFrameAccepted | src-tauri/src/ardeck/ardeck_data.rs:133-136 | `A D b0`, then 256·k filler bytes, then `E C` is accepted as a digital frame |
| LegacyArdeckData.Delivered | src-tauri/src/ardeck/ardeck_data.rs:343-350 | the handler is called once with the record, when a handler is set and a record is emitted |
| LegacyArdeckData.ArdeckData.State | src-tauri/src/ardeck/ardeck_data.rs:89-100 | the snapshot's event buffer is the object's `switch_data_buf` |
| LegacyArdeckData.ArdeckData.constructor | src-tauri/src/ardeck/ardeck_data.rs:107-121 | `new`: idle decoder, empty buffers, counts 0 |
| LegacyArdeckData.ArdeckData.DataOfDigitalSwitch | src-tauri/src/ardeck/ardeck_data.rs:123-126 | sets the data length of a digital frame |
| LegacyArdeckData.ArdeckData.DataOfAnalogSwitch | src-tauri/src/ardeck/ardeck_data.rs:128-131 | sets the data length of an analog frame |
| LegacyArdeckData.ArdeckData.CountupRead | src-tauri/src/ardeck/ardeck_data.rs:133-136 | raises the read count modulo 256 |
| LegacyArdeckData.ArdeckData.CountupComplete | src-tauri/src/ardeck/ardeck_data.rs:138-140 | raises the complete count |
| LegacyArdeckData.ArdeckData.ClearFlagCount | src-tauri/src/ardeck/ardeck_data.rs:142-146 | clears the flags and count |
| LegacyArdeckData.ArdeckData.ClearBuf | src-tauri/src/ardeck/ardeck_data.rs:148-151 | clears the buffers |
| LegacyArdeckData.ArdeckData.FormatSwitchData | src-tauri/src/ardeck/ardeck_data.rs:157-183 | stores the decoded id, state, raw data and timestamp |
| LegacyArdeckData.ArdeckData.PutChallenge | src-tauri/src/ardeck/ardeck_data.rs:185-317 | one byte: the new state is the step function's; `true` exactly when a record is emitted, which is then counted and handed to the handler |
| LegacyArdeckData.ArdeckData.CollectStages | src-tauri/src/ardeck/ardeck_data.rs:189-286 | the collecting part of `put_challenge` |
| LegacyArdeckData.ArdeckData.CollectPayload | src-tauri/src/ardeck/ardeck_data.rs:215-270 | the payload part of `put_challenge` |
| LegacyArdeckData.ArdeckData.OnData | src-tauri/src/ardeck/ardeck_data.rs:319-337 | only the first byte of a chunk is decoded |
| LegacyArdeckData.ArdeckData.OnComplete | src-tauri/src/ardeck/ardeck_data.rs:339-341 | replaces the single handler |
| LegacyArdeckData.ArdeckData.OnCorrectEmit | src-tauri/src/ardeck/ardeck_data.rs:343-350 | counts the record and calls the handler once |
| LegacySerialData.CharWidth | src-tauri/src/ardeck_serial/ardeck_data.rs:49 | the length of the next well-formed UTF-8 sequence (section 4 of RFC 3629), 0 when there is none: never more than the bytes left or four, and 1 exactly for an ASCII lead byte |
| LegacySerialData.SingleByteUtf8 | src-tauri/src/ardeck_serial/ardeck_data.rs:49 | a one-byte chunk is valid UTF-8 exactly when it is ASCII |
| LegacySerialData.AsciiIsUtf8 | src-tauri/src/ardeck_serial/ardeck_data.rs:49 | an ASCII chunk is valid UTF-8 |
| LegacySerialData.Utf8Concat | src-tauri/src/ardeck_serial/ardeck_data.rs:49 | valid UTF-8 chunks concatenate to valid UTF-8 |
| LegacySerialData.CharWidthExtends | src-tauri/src/ardeck_serial/ardeck_data.rs:49 | the first UTF-8 sequence of a chunk is not changed by what follows it |
| LegacySerialData.Utf8Cons | src-tauri/src/ardeck_serial/ardeck_data.rs:49 | one well-formed UTF-8 sequence followed by valid UTF-8 is valid UTF-8 |
| LegacySerialData.InitialInv | src-tauri/src/ardeck_serial/ardeck_data.rs:20-33 | the state `new` builds satisfies the invariant |
| LegacySerialData.Close | src-tauri/src/ardeck_serial/ardeck_data.rs:87-112 | the closing checks leave the invariant holding |
| LegacySerialData.Challenge | src-tauri/src/ardeck_serial/ardeck_data.rs:45-191 | one chunk keeps the invariant and the protocol version; success stores the chunk with header "ADEC" and count 4; failure keeps the old data |
| LegacySerialData.Stages | src-tauri/src/ardeck_serial/ardeck_data.rs:59-181 | the version dispatch on a valid chunk keeps the invariant and the protocol version; success stores the chunk as data with header "ADEC" at count 4; failure leaves the stored data alone |
| LegacySerialData.InvalidChunkIgnored | src-tauri/src/ardeck_serial/ardeck_data.rs:185-189 | a chunk that is not UTF-8 changes nothing |
| LegacySerialData.UnknownVersionIgnored | src-tauri/src/ardeck_serial/ardeck_data.rs:179-181 | an unknown protocol version changes nothing |
| LegacySerialData.VersionsDiffer | src-tauri/src/ardeck_serial/ardeck_data.rs:59-113 | the two protocol versions are distinct |
| LegacySerialData.StartOnlyWhenIdle | src-tauri/src/ardeck_serial/ardeck_data.rs:60-67 | an idle `A` starts a frame with header "A" and count 1 |
| LegacySerialData.Open | src-tauri/src/ardeck_serial/ardeck_data.rs:60-67 | the opening stage of both layouts; `StartOnlyWhenIdle` states its effect |
| LegacySerialData.Take | src-tauri/src/ardeck_serial/ardeck_data.rs:68-85 | one header letter is taken only during a frame and at its own count; `TakeElsewhere` and the `BelowFour` lemmas state its effect |
| LegacySerialData.Expected | src-tauri/src/ardeck_serial/ardeck_data.rs:68-85 | the letter expected at each count is one of `D`, `E`, `C` |
| LegacySerialData.TakeElsewhere | src-tauri/src/ardeck_serial/ardeck_data.rs:68-151 | a letter stage does nothing at any count other than its own |
| LegacySerialData.BelowFour2014 | src-tauri/src/ardeck_serial/ardeck_data.rs:68-112 | version 2014: below count 4 a chunk adds its letter if expected and raises the count |
| LegacySerialData.BelowFour2024 | src-tauri/src/ardeck_serial/ardeck_data.rs:124-178 | version 2024: the same, with the count 2 chunk skipped |
| LegacySerialData.BelowFour | src-tauri/src/ardeck_serial/ardeck_data.rs:59-178 | both versions, below count 4 |
| LegacySerialData.CloseAtFour | src-tauri/src/ardeck_serial/ardeck_data.rs:87-107 | at count 4 a full header accepts the chunk; otherwise the decoder resets |
| LegacySerialData.Four2014 | src-tauri/src/ardeck_serial/ardeck_data.rs:87-107 | version 2014 at count 4 goes straight to the closing checks |
| LegacySerialData.Four2024 | src-tauri/src/ardeck_serial/ardeck_data.rs:146-173 | version 2024 at count 4 first takes a `C` |
| LegacySerialData.CompletesHeader | src-tauri/src/ardeck_serial/ardeck_data.rs:146-157 | adding `C` completes the header exactly from "ADE" |
| LegacySerialData.AtCountFour | src-tauri/src/ardeck_serial/ardeck_data.rs:87-173 | at count 4 a chunk is accepted exactly when the header is complete (for a 2024 `C`, when it was "ADE"); success stores it, failure resets |
| LegacySerialData.Feed | src-tauri/src/ardeck_serial/ardeck_data.rs:193-208 | feeding chunks keeps the invariant and answers once per chunk |
| LegacySerialData.FeedCons | src-tauri/src/ardeck_serial/ardeck_data.rs:193-208 | feeding a chunk and then the rest is feeding them together |
| LegacySerialData.FeedStep | src-tauri/src/ardeck_serial/ardeck_data.rs:193-208 | one chunk's outcome followed by the rest's run is the run of the whole |
| LegacySerialData.FeedTwoChunks | src-tauri/src/ardeck_serial/ardeck_data.rs:193-208 | two chunks fed in turn give the two outcomes in order |
| LegacySerialData.TakesD | src-tauri/src/ardeck_serial/ardeck_data.rs:68-73 | a `D` at count 1 is taken |
| LegacySerialData.SizeSkipped | src-tauri/src/ardeck_serial/ardeck_data.rs:131-137 | version 2024 skips any valid chunk at count 2 |
| LegacySerialData.TakesLateE | src-tauri/src/ardeck_serial/ardeck_data.rs:139-144 | version 2024 takes `E` at count 3 |
| LegacySerialData.Frame2014 | src-tauri/src/ardeck_serial/ardeck_data.rs:59-112 | version 2014: `A D E C data` succeeds on the data chunk and stores it |
| LegacySerialData.Tail2014 | src-tauri/src/ardeck_serial/ardeck_data.rs:74-112 | version 2014: after "AD", `E`, `C` and a data chunk answer false, false, true and store the chunk |
| LegacySerialData.Frame2024 | src-tauri/src/ardeck_serial/ardeck_data.rs:113-178 | version 2024: `A D size E C` succeeds on the `C`, and what is stored is the `C` itself |
| LegacySerialData.Tail2024 | src-tauri/src/ardeck_serial/ardeck_data.rs:131-178 | version 2024: after "AD", the size chunk, `E` and `C` answer false, false, true and store the `C` |
| LegacySerialData.HeaderLatches | src-tauri/src/ardeck_serial/ardeck_data.rs:87-99 | after a success nothing resets the header, so every later valid chunk other than a 2024 `C` succeeds too |
| LegacySerialData.ArdeckData.constructor | src-tauri/src/ardeck_serial/ardeck_data.rs:20-33 | `new`: header "ADEC", body size 1, data `[0]`, idle, version 2024 |
| LegacySerialData.ArdeckData.Countup | src-tauri/src/ardeck_serial/ardeck_data.rs:35-37 | raises the count |
| LegacySerialData.ArdeckData.ParamReset | src-tauri/src/ardeck_serial/ardeck_data.rs:39-43 | clears the header, flag and count |
| LegacySerialData.ArdeckData.PutChallenge | src-tauri/src/ardeck_serial/ardeck_data.rs:45-191 | the new state and answer are those of `Challenge` |
| LegacySerialData.ArdeckData.OpenStage | src-tauri/src/ardeck_serial/ardeck_data.rs:60-67 | the start stage |
| LegacySerialData.ArdeckData.TakeStage | src-tauri/src/ardeck_serial/ardeck_data.rs:68-85 | one letter stage |
| LegacySerialData.ArdeckData.CloseStage | src-tauri/src/ardeck_serial/ardeck_data.rs:87-112 | the closing stage |
| LegacySerialData.ArdeckData.OnData | src-tauri/src/ardeck_serial/ardeck_data.rs:193-208 | on success the handler is called once with the first stored byte |
| LegacySerialData.ArdeckData.OnCollect | src-tauri/src/ardeck_serial/ardeck_data.rs:210-214 | replaces the handler |
| LegacyActionCompare.Put | src-tauri/src/ardeck_studio/action/compare.rs:39-46 | the action becomes current for its id; the one it replaces becomes previous; other ids are untouched; an id has a previous action only if it has a current one |
| LegacyActionCompare.EmitsIffChanged | src-tauri/src/ardeck_studio/action/compare.rs:51-61 | an action is passed on exactly when its id is new or its state differs from the last action put for that id |
| LegacyActionCompare.Emits | src-tauri/src/ardeck_studio/action/compare.rs:51-61 | `compare`'s test: the id has no previous action, or the current and previous states differ; `EmitsIffChanged` states it in terms of the inputs |
| LegacyActionCompare.Switches | src-tauri/src/ardeck_studio/action.rs:32-35 | the switch events carried by actions, in order |
| LegacyActionCompare.PutMirrors | src-tauri/src/ardeck_studio/action/compare.rs:39-61 | one action keeps this detector and the later one in step, and both decide alike |
| LegacyActionCompare.AgreesWithDetector | src-tauri/src/ardeck_studio/action/compare.rs:39-61 | comparing with the previous input passes on the same events as comparing with the last event passed on (`switch_info/compare.rs`) |
| LegacyActionCompare.FreshAgrees | src-tauri/src/ardeck_studio/action/compare.rs:31-61 | from empty maps, the two detectors agree on every input |
| LegacyActionCompare.ActionCompare.constructor | src-tauri/src/ardeck_studio/action/compare.rs:31-37 | `new`: empty maps and no callbacks |
| LegacyActionCompare.ActionCompare.PutAction | src-tauri/src/ardeck_studio/action/compare.rs:39-49 | the maps become `Put`'s, and the callbacks are called when the comparison says so |
| LegacyActionCompare.ActionCompare.Compare | src-tauri/src/ardeck_studio/action/compare.rs:51-61 | reads the maps without changing them; calls every callback with the current action when it is new or changed |
| LegacyActionCompare.ActionCompare.OnChangeAction | src-tauri/src/ardeck_studio/action/compare.rs:63-65 | appends a callback |
| LegacyActionCompare.ActionCompare.OnChangeActionEmitAll | src-tauri/src/ardeck_studio/action/compare.rs:67-71 | calls every callback once, in registration order |
| WindowTheme.Clamp | src/component/WindowTheme.tsx:69-77 | a channel is forced into [0, 255], unchanged when already there, and moved to the nearest value of that range |
| WindowTheme.OverFormat | src/component/WindowTheme.tsx:68-78 | `overFormat` keeps the length and clamps every channel; a colour in range is unchanged |
| WindowTheme.OverFormatIdempotent | src/component/WindowTheme.tsx:68-78 | a formatted colour is in range, and formatting again changes nothing |
| WindowTheme.Lighten | src/component/WindowTheme.tsx:82 | every channel is raised by ten |
| WindowTheme.Formatted | src/component/WindowTheme.tsx:80-88 | afterwards a secondary background is present; a present one, and every other colour, is kept |
| WindowTheme.DerivedSecondary | src/component/WindowTheme.tsx:80-84 | a derived secondary background has one channel per primary channel, each in range, at most ten above the primary and exactly ten above it when that stays in range |
| WindowTheme.FormattedIdempotent | src/component/WindowTheme.tsx:67-89 | formatting a formatted theme changes nothing |
| WindowTheme.Theme.constructor | src/component/WindowTheme.tsx:39-61 | a theme with the given fields |
| WindowTheme.ThemeFormatting | src/component/WindowTheme.tsx:67-89 | updates the theme's colours in place to `Formatted` of the old ones and returns the same object |
| Props.Charset | src/util/props.ts:20-30 | the charset's length is the sum of the selected classes: 26, 26, 10, 30 |
| Props.UpperCaseChars | src/util/props.ts:20 | the upper-case class is exactly `A`–`Z` |
| Props.LowerCaseChars | src/util/props.ts:21 | the lower-case class is exactly `a`–`z` |
| Props.NumberChars | src/util/props.ts:22 | the digit class is exactly `0`–`9` |
| Props.CharsetMembership | src/util/props.ts:27-30 | a character is in the charset exactly when its class's flag bit (8, 4, 2, 1) is set |
| Props.EmptyCharset | src/util/props.ts:25-30 | the charset is empty exactly when none of the four low bits is set |
| Props.Index | src/util/props.ts:36 | `Math.floor(draw * n)` of a draw in [0, 1) is a valid index |
| Props.Drawn | src/util/props.ts:32-39 | an empty charset draws the empty string; otherwise one character per draw |
| Props.DrawnChars | src/util/props.ts:34-38 | the `i`-th character is the charset's character at the `i`-th draw's index, so every character is from the charset |
| Props.Characters | src/util/props.ts:25-30 | the appended classes form the charset |
| Props.RandomStr | src/util/props.ts:19-40 | the loop draws `length` characters (none for a length of zero or less) as `Drawn` says |
| Props.RandomStrShape | src/util/props.ts:34-38 | with a non-empty charset the result has exactly `length` characters, all from the charset |
| Props.Hex | src/util/props.ts:47 | `toString(16)` gives lower-case hexadecimal digits without a leading zero |
| Props.HexString | src/util/props.ts:47 | a negative number is written with a minus sign |
| Props.HexDigitValues | src/util/props.ts:47 | each hexadecimal digit reads back as its value |
| Props.HexRoundTrip | src/util/props.ts:47 | the hexadecimal text of a number reads back as that number |
| Props.MakeUid | src/util/props.ts:42-50 | 64 characters from lower case and digits, then `-`, then the time in hexadecimal |
| Props.UidShape | src/util/props.ts:42-50 | an id has 64 lower-case letters or digits, a `-` at index 64, and a tail that reads back as the time |

## Left out

- Serial transport is left out because it is hardware I/O and asynchronous code. This covers the read loops (`port_read`), port setup, timeouts, the `close` task and the tokio tasks of `ardeck/tauri.rs`. Bytes and chunks come in as input sequences instead, and the port enumeration as a list.
- `get_connecting_serials` is left out because it only reads global state. `available_ports().unwrap()` is taken to succeed. `get_port_info` is not left out: its search of the enumerated ports, and the `unwrap()` panic when the port is missing, are modelled inside `ArdeckCommands.Open`.
- The plugin WebSocket server, process spawning and message sending are left out. They are network and child-process code; `action_target.rs` is not part of this model.
- `PluginManager.get_all_mut` is left out: it hands out a mutable reference, and the model has no aliasing of the map.
- SettingsCache.Lookup, SettingsCache.SetFlag, SettingsCache.Refresh, SettingsCache.Without and the `SettingsCache.Cache` methods compare paths as text. The source keys entries by `PathBuf`, whose equality compares path components, so `a//b` and `a/b` are one path there and two here. The callers build every path by joining the settings directory with a file name, so the two agree on the paths that occur.
- Loading and saving settings files is left out. The file store is given as an already-parsed `Option` of records, and a save is returned as the new record list. Serde (de)serialisation is left out too.
- `Uuid::new_v4`, `Utc::now`, `Date.now` and `Math.random` are inputs, so their distributions are not modelled. `SavedPresetFound` assumes that a fresh uuid does not collide with a stored one; `FreshCollisionShadowed` shows what happens when it does.
- The whole React UI is left out, along with `WindowTheme`'s `fetch` and DOM code. `getTheme`, `themeList` and `setTheme` only fetch JSON and set CSS variables.
- Theme channel values are modelled as exact reals. JavaScript's floating point, NaN and non-numeric values are left out.
- `Props.RandomStr`: the flags are modelled as an integer. JavaScript converts a non-integer `type` with ToInt32, and that conversion is left out.
- `SwitchParser.Feed` and `LegacyArdeckData.Feed` use one clock value for a whole stream. A real stream would carry a timestamp per byte.
- The inert `header_len` field is kept in the classes and never read. This matches both decoders, which never read it either.
- `complete_count` (a `u128`) is modelled as an unbounded natural number.
- `Ardeck::open` is the device-opening call of `open_port`. Its outcome is a parameter `device`, because its signature in `ardeck.rs` does not match the call.
- `LegacyArdeckData`: the read count wraps as a release build does. A debug build would panic on the overflow, and that panic is not modelled.
- `LegacySerialData.Countup`: the method requires a count below 255. The decoder's invariant keeps the count at most 4, so the `u8` never overflows.
- `LegacyActionCompare`: `action/compare.rs` is not declared as a module, and the `get_switch_id`/`get_switch_state` accessors it calls do not exist on `Action`. The model reads them as the switch id and state of the action's event.
- `SwitchParser.ActionDataParser.PutData`, `LegacyArdeckData.ArdeckData.OnData` and `LegacySerialData.ArdeckData.OnData` require a non-empty chunk. In the source, an empty chunk panics on indexing, and that panic is not modelled.

## Findings

| source | as written | input that shows it | evidently intended | confidence | as-written member | corrected member |
|---|---|---|---|---|---|---|
| src-tauri/src/ardeck/ardeck_data.rs:133-136 | the read count wraps modulo 256 and nothing ends a frame that runs long, so the count can come round to the data length again | `A D 0x02`, then 256 bytes of `0x00`, then `E C`: one digital event (id 1, state 0) is emitted | a frame is only its six contiguous bytes, as the later decoder enforces with its `read_count > 5` cut-off | medium, not executed | LegacyArdeckData.StretchedFrameAccepted | SwitchParser.StretchedFrameDropped |
