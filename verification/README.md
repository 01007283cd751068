# Models of a trusted-firmware tree and its tools

Dafny models of five parts of the repository and proofs of what they promise. Run
`dafny verify dfyconfig.toml` in this directory.

## What is modelled

**Kconfig** (`Kconfig*.dfy`). Values of symbols and choices as functions of the configuration and of
what the user has set (`KconfigValues`), and the engine that computes them lazily, keeps them in a
cache and throws cached values away after an assignment (`KconfigEngine`). What these values are in terms of
prompts, defaults, selects and implies is in `KconfigMeaning`. The cache is sound not
because all static dependencies are cached but because of what each computation has read, which
`KconfigReads` records next to every value. Around it: choices and assignable values
(`KconfigChoices`), files of the form `.config` and minimal configurations (`KconfigSaveLoad`,
`KconfigFiles`, `KconfigRoundTrip`; what their lines mean, in `KconfigLoadMeaning` and
`KconfigWriteMeaning`), the expression parser and printer (`KconfigParsing`, `KconfigParser`, and the
grammar in `KconfigGrammar`), the dependency loop detection (`KconfigLoops` and
`KconfigLoopSearch`; what it raises in `KconfigLoopProofs`, what its silence means in `KconfigLoopTimes`,
`KconfigLoopGuard`, `KconfigEntrance` and `KconfigOneChoice`, and what it leaves to evaluation in
`KconfigLoopOrder`) and the rewriting of the menu tree (`KconfigMenu`, `KconfigMenuFinish`,
`KconfigMenuWalk`, and who becomes whose parent in `KconfigMenuParents`).

**Firmware update** (`Fwu*.dfy`). Each monitor call is a step on descriptors, the table of loaded
images, memory and the running world (`FwuModel`); the class `Bl1Fwu` performs the steps in place.
Proved for every run: the table, the sizes, disjointness and the world (`FwuSafety`), what is in memory
(`FwuContents`), what can stop the machine (`FwuStops`, with runs in `FwuExamples`), and exactly when each
request is answered how (`FwuMeaning`).

**Exception priorities** (`Ehf*.dfy`). The word of active priorities as a stack, the masks over nested
activations (`EhfStack`), over world switches and preemption grants (`EhfWorld`), and in any state
(`EhfMeaning`); the class `Ehf` updates them in place.

**Partition tables** (`PtGen*.dfy`) and **CRC** (`Crc*.dfy`). Layout, packing and entries of the
generated tables, and what the entries are for the partitions asked for (`PtGenMeaning`); the table-driven
CRC against a shift register, and its chaining.

**Hand-off list** (`HandOff.dfy`). The walk that links executable images.

## What is assumed

- Kconfig: symbols and choices have ranks, and a symbol's properties only mention lower ranks (`WF`). A
  silent loop detection alone does not leave such an order: it does so if and only if no choice symbol
  leads to one listed before it (`KconfigLoopOrder.EvaluationOrder`, for configurations in which MODULES
  depends on nothing and what mentions a choice is in it or mentions one of its symbols). In general
  tristate symbols come after MODULES. A choice symbol mentions its choice, and
  where visibility or round trips need it, the dependencies of menu nodes have been propagated to
  prompts, defaults and direct dependencies. Defaults of a choice lie inside the choice. Conversion of
  text to numbers and back is a parameter.
- Files: symbols have different names, without `=`, blank and line break. What the user has set for int and
  hex symbols are numbers, as assigning asks for (`KconfigSaveLoad.AssigningKeepsNumbers`), and for bool
  choices not m. In the two round trips values contain no line break, the texts of int and hex symbols do not
  end in white space, and choices are bool choices of bool symbols and not optional.
- Menu tree: if nodes have no prompt, as the parser makes them.
- Firmware update: answers of the platform and of the authentication module are parameters of each call.
  Starting an image leaves it EXECUTED (as bl1/aarch64/bl1_context_mgmt.c does). An allowed run asks for
  authentication of secure images from the normal world only, has no pre-load handler that fails, and
  has nobody but the monitor write over an image that is being loaded. Base plus maximum size of a secure
  image does not go beyond the last address. A failed assertion and a panic stop the machine.
- Exception priorities: activated priorities stand for their index. For the world protocol the running
  priority is outside the secure range (otherwise world switches do nothing, `EhfMeaning.SwitchesWait`), and
  the normal world can only write masks of its own range.
- Partition tables: numbers do not overflow. The CRC instruction takes the bits of a byte one by one.
- Hand-off list: next links and head are cleared before the walk.

## What was found

Places where the code differs from what its comments or the obvious reading promise; the code is modelled
as it is.

- A symbol outside choices that is visible and selected at m and implied to y offers m although only y is
  respected (`KconfigChoices.AssignableExact`, `KconfigExamples.OfferedNotRespected`). In an m-mode choice
  selects and implies count for what is offered, but not for what is respected
  (`KconfigChoices.MModeAssignableExact`, `KconfigExamples.OnlyYOffered`).
- A symbol that is y by its defaults although it is visible at m only is written as y and limited to m
  when that is loaded (`KconfigRoundTrip.FullRoundTripExact`, `KconfigExamples.LimitedChanges`).
- A minimal configuration leaves out a symbol that is selected as far as it is visible, taking it for one
  that cannot be changed, and so loses a value other than its default, of a string for example
  (`KconfigRoundTrip.MinimalRoundTripExact`, `KconfigExamples.TextLost`).
- Loading a file in place of what the user has set keeps the pick of a choice if the file gives m to one of its
  symbols and y to none, although all user values are said to be cleared (kconfiglib.py lines 1193-1194;
  `KconfigLoadMeaning.LoadedPick`, `KconfigExamples.EarlierPickStays`).
- The loop detection can miss a loop through a choice, depending on the order of the choice's symbols
  (`KconfigOneChoice.ChoiceLoopMissed`). It finds every loop if no choice symbol leads to one listed
  before it, and its silence means that there is none only then (`KconfigLoopGuard.SilenceExact`).
- The comment at bl31/ehf.c lines 201-204 says that a nested deactivation restores the mask of the next
  priority; the code leaves the stricter one of the priority just deactivated, so that activating this
  priority again panics (`EhfStack.NestedMaskStricter`, `EhfStack.AfterNested`,
  `EhfExamples.NestedMaskStays`).
- In the firmware update the normal world can stop the machine with a reset and a resume
  (`FwuStops.ResetThenResumeStops`, `FwuExamples.ResumeStops`), a one-byte image makes the overlap check of
  others fail its assertion (`FwuStops.OverlapsIs`, `FwuExamples.OneByteStops`), a failing pre-load handler blocks first
  copies of other images until the image is copied after all (`FwuStops.FailedPreLoadBlocks`,
  `FwuStops.RetryMakesUp`, `FwuExamples.PreLoadFails`), and in-place authentication for the secure world
  skips the overlap check (`FwuExamples.SecureAuthOverlaps`).
- Rounding to a cylinder moves a position on a boundary by a whole cylinder
  (`PtGenLayout.RoundsToCyl`); no filler entry covers the gap behind a null-sized first partition
  (`PtGenTables.FillerCoversGap`, `PtGenTables.GapLeftOpen`).

## Model

| member | source | states |
|---|---|---|
| KconfigReads.Congruent | atf-20240117-bacca82a8/Kconfiglib/kconfiglib.py:5988-6042 | a value (tristate or text value, visibility, selection, assignable set) depends on nothing but its own part of the user input and on the values its computation really reads, short-circuiting included; equal inputs there give equal values and equal reads |
| KconfigOrder.ReadsDecrease | atf-20240117-bacca82a8/Kconfiglib/kconfiglib.py:3466-3525 | every value that a computation reads is computed earlier: evaluation never comes back to where it started |
| KconfigOrder.Stable | atf-20240117-bacca82a8/Kconfiglib/kconfiglib.py:4859-4894 | values in a set closed under reading survive any change of input that touches no slot of the set |
| KconfigOrder.Unaffected | atf-20240117-bacca82a8/Kconfiglib/kconfiglib.py:4859-4894 | a change of input leaves a value alone if neither its slot nor any slot computed before it takes anything from the change |
| KconfigCache.ReadsReach | atf-20240117-bacca82a8/Kconfiglib/kconfiglib.py:3466-3525 | what a computation reads belongs to an item that has the reading item as a dependent |
| KconfigCache.LossSpreads | atf-20240117-bacca82a8/Kconfiglib/kconfiglib.py:4865-4894 | if an item has lost its cached values and another cached value was computed from them, that value's owner has lost its values too, although invalidation stops at items without a cached visibility |
| KconfigCache.InvalidatedClosed | atf-20240117-bacca82a8/Kconfiglib/kconfiglib.py:4865-4894 | what an invalidation leaves in the cache reads nothing that was thrown away |
| KconfigCache.InvalidatedSound | atf-20240117-bacca82a8/Kconfiglib/kconfiglib.py:4865-4894 | after an invalidation covering the changed input, every value still cached is the fresh one for the new input |
| KconfigEngine.Kconfig.RecInvalidate | atf-20240117-bacca82a8/Kconfiglib/kconfiglib.py:4859-4894 | the recursive invalidation ends on the cyclic graph of choices and symbols, with the number of cached visibilities as measure, and throws away all it has to |
| KconfigEngine.Kconfig.RecInvalidateIfHasPrompt | atf-20240117-bacca82a8/Kconfiglib/kconfiglib.py:4896-4916 | nothing is thrown away for a symbol without prompts, and everything that may depend on it otherwise |
| KconfigEngine.Kconfig.Evaluate | atf-20240117-bacca82a8/Kconfiglib/kconfiglib.py:5988-6042 | the short-circuiting evaluation gives the value of the plain one and leaves in the cache what it read |
| KconfigEngine.Kconfig.Visibility | atf-20240117-bacca82a8/Kconfiglib/kconfiglib.py:6286-6313 | the cached visibility of a symbol equals the freshly computed one |
| KconfigEngine.Kconfig.TriValue | atf-20240117-bacca82a8/Kconfiglib/kconfiglib.py:4428-4505 | the cached tristate value of a symbol equals the freshly computed one |
| KconfigEngine.Kconfig.StrValue | atf-20240117-bacca82a8/Kconfiglib/kconfiglib.py:4287-4425 | the cached text value of a symbol equals the freshly computed one |
| KconfigEngine.Kconfig.SelectionOf | atf-20240117-bacca82a8/Kconfiglib/kconfiglib.py:5424-5453 | the cached selection of a choice equals the freshly computed one |
| KconfigEngine.Kconfig.Assignable | atf-20240117-bacca82a8/Kconfiglib/kconfiglib.py:4813-4857 | the cached assignable set of a symbol equals the freshly computed one |
| KconfigEngine.Kconfig.SetValue | atf-20240117-bacca82a8/Kconfiglib/kconfiglib.py:4558-4645 | assigning accepts and rejects as specified, changes the user input just so, and leaves the cache sound |
| KconfigEngine.Kconfig.SetPick | atf-20240117-bacca82a8/Kconfiglib/kconfiglib.py:4558-4645 | setting a choice symbol to y also makes it the pick of its choice; invalidating the choice alone leaves the cache sound |
| KconfigEngine.Kconfig.UnsetValue | atf-20240117-bacca82a8/Kconfiglib/kconfiglib.py:4647-4654 | removing a user value leaves the cache sound |
| KconfigEngine.Kconfig.SetMode | atf-20240117-bacca82a8/Kconfiglib/kconfiglib.py:5244-5283 | setting the mode of a choice leaves the cache sound |
| KconfigEngine.Kconfig.UnsetMode | atf-20240117-bacca82a8/Kconfiglib/kconfiglib.py:5285-5292 | removing mode and pick of a choice leaves the cache sound |
| KconfigEngine.Kconfig.Run | atf-20240117-bacca82a8/Kconfiglib/kconfiglib.py:4558-4894 | any sequence of assignments, removals and reads of values, visibilities, selections and assignable sets gives the answers of an evaluator that caches nothing |
| KconfigMeaning.ExprMeaning | atf-20240117-bacca82a8/Kconfiglib/kconfiglib.py:5988-6042 | && is worth the smaller and || the larger of its operands, ! turns n and y around, comparisons are worth y or n, and symbols, choices and constants their values |
| KconfigMeaning.NumbersCompared | atf-20240117-bacca82a8/Kconfiglib/kconfiglib.py:6016-6042 | operands that are not both strings and both count as numbers are compared as numbers, by each of the six operators |
| KconfigMeaning.TextsCompared | atf-20240117-bacca82a8/Kconfiglib/kconfiglib.py:6016-6042 | all other operands are compared as texts in lexicographic order, by each of the six operators |
| KconfigMeaning.VisibilityMeaning | atf-20240117-bacca82a8/Kconfiglib/kconfiglib.py:6286-6313 | a symbol is as visible as its most visible prompt, with m raised to y unless it can be m; a tristate symbol of a y-mode choice needs a y prompt, and a bool symbol of a tristate choice needs y mode |
| KconfigMeaning.ChoiceVisibilityMeaning | atf-20240117-bacca82a8/Kconfiglib/kconfiglib.py:6286-6313 | a choice is as visible as its most visible prompt, with m raised to y unless it can be m |
| KconfigMeaning.ModeMeaning | atf-20240117-bacca82a8/Kconfiglib/kconfiglib.py:5190-5207 | a choice is in n mode if and only if it is invisible, or optional with neither m nor y asked for; and otherwise in y mode if and only if it cannot be m, or y is asked for and visible |
| KconfigMeaning.SelectionMeaning | atf-20240117-bacca82a8/Kconfiglib/kconfiglib.py:5424-5453 | the selection of a y-mode choice is the user's pick if that is visible, else the symbol of the first default whose condition and symbol are not n, else the first visible symbol |
| KconfigMeaning.ValueFromUser | atf-20240117-bacca82a8/Kconfiglib/kconfiglib.py:4456-4492 | the value of a visible symbol that the user has set: the user's value limited by the visibility, or that of selects if larger, with m promoted for symbols that cannot be m or are implied to y |
| KconfigMeaning.ValueFromDefaults | atf-20240117-bacca82a8/Kconfiglib/kconfiglib.py:4460-4492 | the value of all others: the largest of selects, met implies and the value of the first default that applies limited by its condition, n if none applies, with m promoted likewise; it is written if and only if it is visible or one of these is not n |
| KconfigMeaning.ChoiceSymMeaning | atf-20240117-bacca82a8/Kconfiglib/kconfiglib.py:4494-4502 | a symbol of a choice is y if and only if it is visible at y and selected, and m if and only if it is visible at m and the user has set it to m or y |
| KconfigMeaning.StringMeaning | atf-20240117-bacca82a8/Kconfiglib/kconfiglib.py:4396-4410 | a string symbol has the user's text if it is visible, and otherwise the text of the first default that applies, or none |
| KconfigMeaning.NumberMeaning | atf-20240117-bacca82a8/Kconfiglib/kconfiglib.py:4316-4394 | an int or hex symbol has the user's text if it is visible and the number fits the first range that applies, and otherwise its default, replaced by the nearest end of that range if it does not fit |
| KconfigExamples.DefaultLimited | atf-20240117-bacca82a8/Kconfiglib/kconfiglib.py:4463-4470 | a configuration in which a default y under a condition that is m makes its symbol m |
| KconfigChoices.VisibilityFollowsMode | atf-20240117-bacca82a8/Kconfiglib/kconfiglib.py:6286-6313 | symbols of a choice in n mode are invisible, in m mode visible at m at most, in y mode visible at y or not at all |
| KconfigChoices.SelectionIs | atf-20240117-bacca82a8/Kconfiglib/kconfiglib.py:5424-5453 | a selection is a visible symbol of a y-mode choice, and there is none only if no symbol is visible |
| KconfigChoices.ChoiceExclusive | atf-20240117-bacca82a8/Kconfiglib/kconfiglib.py:4428-4505 | exactly one symbol of a choice is at y and the rest at n if and only if the choice is in y mode with a visible symbol; in m mode all are at n or m; otherwise all are at n |
| KconfigChoices.AssignedValue | atf-20240117-bacca82a8/Kconfiglib/kconfiglib.py:4558-4645 | what becomes of a visible symbol outside choices when a value is assigned: the larger of the selecting value and the assigned one limited by visibility, with m promoted to y for bool or y-implied symbols |
| KconfigChoices.AssignableExact | atf-20240117-bacca82a8/Kconfiglib/kconfiglib.py:4813-4857 | the assignable values of a visible symbol outside choices are exactly those respected on assignment, if and only if the symbol is not both visible and selected at m and implied to y, in which case m is offered but only y is respected |
| KconfigChoices.PickRespected | atf-20240117-bacca82a8/Kconfiglib/kconfiglib.py:4813-4857 | a visible symbol of a y-mode choice can only be set to y, and setting it selects it |
| KconfigChoices.MModeAssignableExact | atf-20240117-bacca82a8/Kconfiglib/kconfiglib.py:4848-4857 | the assignable values of a visible symbol of an m-mode choice are exactly those respected on assignment, n and m, if and only if nothing selects the symbol and nothing implies it to y |
| KconfigChoices.OfferedAtM | atf-20240117-bacca82a8/Kconfiglib/kconfiglib.py:4848-4857 | for any symbol visible at m the selecting value alone is offered, or n and m if nothing selects it, with y in place of m if it is implied to y |
| KconfigChoices.AssignableOrdered | atf-20240117-bacca82a8/Kconfiglib/kconfiglib.py:4813-4857 | the values offered are in increasing order, and there are none if and only if the symbol is invisible or neither bool nor tristate |
| KconfigChoices.ModesAssignableExact | atf-20240117-bacca82a8/Kconfiglib/kconfiglib.py:5405-5421 | the modes offered for a visible choice are exactly those that are respected when they are set |
| KconfigExamples.OnlyYOffered | atf-20240117-bacca82a8/Kconfiglib/kconfiglib.py:4848-4857 | a configuration in which y is the only value offered for a symbol of an m-mode choice, and n and m are the ones respected |
| KconfigExamples.OfferedNotRespected | atf-20240117-bacca82a8/Kconfiglib/kconfiglib.py:4848-4857 | a configuration in which m is offered for a symbol and not respected |
| KconfigText.UnescapeEscape | atf-20240117-bacca82a8/Kconfiglib/kconfiglib.py:6176-6194 | unescaping undoes escaping, for every string |
| KconfigText.QuotedString | atf-20240117-bacca82a8/Kconfiglib/kconfiglib.py:7160-7160 | a quoted and escaped string without line breaks is matched whole and unescapes to itself |
| KconfigText.SetLineMatch | atf-20240117-bacca82a8/Kconfiglib/kconfiglib.py:981-981 | a written assignment line is split into the symbol's name and the value text again |
| KconfigText.UnsetLineMatch | atf-20240117-bacca82a8/Kconfiglib/kconfiglib.py:982-983 | a written `is not set` line names its symbol again and is not taken for an assignment |
| KconfigText.SplitJoin | atf-20240117-bacca82a8/Kconfiglib/kconfiglib.py:1247-1270 | lines without line breaks are read back as they were written |
| KconfigSaveLoad.LoadWritten | atf-20240117-bacca82a8/Kconfiglib/kconfiglib.py:1271-1358 | reading a line that was written for a symbol enters exactly the symbol's value, unless it is a text that is no number for an int or hex symbol |
| KconfigSaveLoad.LoadRestores | atf-20240117-bacca82a8/Kconfiglib/kconfiglib.py:1247-1366 | loading a written file in place of any configuration leaves the written values that are accepted as user values and no others |
| KconfigFiles.ConfigString | atf-20240117-bacca82a8/Kconfiglib/kconfiglib.py:4526-4549 | the line written for a symbol, computed with the cache, is the specified one |
| KconfigFiles.DefaultText | atf-20240117-bacca82a8/Kconfiglib/kconfiglib.py:4918-4951 | the default used by the minimal configuration, computed with the cache, is the specified one |
| KconfigFiles.Needed | atf-20240117-bacca82a8/Kconfiglib/kconfiglib.py:1708-1728 | the symbols that the minimal configuration includes, decided with the cache, are the specified ones |
| KconfigFiles.ConfigContents | atf-20240117-bacca82a8/Kconfiglib/kconfiglib.py:1695-1730 | the written contents, full or minimal, are the specified ones |
| KconfigFiles.ProcessLines | atf-20240117-bacca82a8/Kconfiglib/kconfiglib.py:1271-1358 | processing lines one by one leaves the specified user values and sets of assigned items |
| KconfigFiles.UnsetOthers | atf-20240117-bacca82a8/Kconfiglib/kconfiglib.py:1360-1366 | symbols and choices that no line assigned lose their user values |
| KconfigFiles.LoadConfig | atf-20240117-bacca82a8/Kconfiglib/kconfiglib.py:1247-1366 | loading with replacement leaves the specified user values and a sound cache |
| KconfigLoadMeaning.AssignMeaning | atf-20240117-bacca82a8/Kconfiglib/kconfiglib.py:4558-4645 | assigning is accepted if and only if the value is of the symbol's type; it sets the user value and, when a choice symbol is set to y, the pick, and nothing else |
| KconfigLoadMeaning.AssignModeMeaning | atf-20240117-bacca82a8/Kconfiglib/kconfiglib.py:5244-5283 | setting the mode of a choice is accepted if and only if the value is a mode of its type, and sets nothing else |
| KconfigLoadMeaning.LinesMeaning | atf-20240117-bacca82a8/Kconfiglib/kconfiglib.py:1247-1270 | the lines of a text are those between its line feeds, carriage returns and pairs of both; a last line needs no end |
| KconfigLoadMeaning.EveryText | atf-20240117-bacca82a8/Kconfiglib/kconfiglib.py:1247-1270 | every text consists of such lines |
| KconfigLoadMeaning.SetMatchMeaning | atf-20240117-bacca82a8/Kconfiglib/kconfiglib.py:981-981 | a line is matched as an assignment if and only if it is `CONFIG_`, a name without `=`, `=` and any value |
| KconfigLoadMeaning.UnsetMatchMeaning | atf-20240117-bacca82a8/Kconfiglib/kconfiglib.py:982-983 | a line is matched as unsetting if and only if it begins with `# CONFIG_`, a name without blanks and ` is not set` |
| KconfigLoadMeaning.StringMatchMeaning | atf-20240117-bacca82a8/Kconfiglib/kconfiglib.py:7160-7160 | a value is matched as a string if and only if it begins with a quoted string, up to the first quote that is not escaped; each escaped character stands for itself |
| KconfigLoadMeaning.LoadedTri | atf-20240117-bacca82a8/Kconfiglib/kconfiglib.py:1271-1366 | after loading any text, the user value of a bool or tristate symbol is v if and only if the last line that gives it a value gives v: `CONFIG_X=` followed by y or n, or m if it is tristate, whatever follows, or `# CONFIG_X is not set` for n |
| KconfigLoadMeaning.SameNo | atf-20240117-bacca82a8/Kconfiglib/kconfiglib.py:1271-1354 | `CONFIG_X=n` and `# CONFIG_X is not set` have the same effect, whatever follows them |
| KconfigLoadMeaning.LoadedText | atf-20240117-bacca82a8/Kconfiglib/kconfiglib.py:1271-1366 | after loading any text, the user value of a string, int or hex symbol is t if and only if the last line that gives it one gives t: a quoted string that stands for t, or the number t; other lines for it are as if they were not there |
| KconfigLoadMeaning.LoadedMode | atf-20240117-bacca82a8/Kconfiglib/kconfiglib.py:1295-1366 | after loading any text, the user's mode of a choice is the last m or y given to one of its symbols, only y counting for a bool choice; there is none if none is given |
| KconfigLoadMeaning.LoadedPick | atf-20240117-bacca82a8/Kconfiglib/kconfiglib.py:1271-1366 | after loading any text, the user's pick of a choice is its last symbol that is given y; if none is, the earlier pick stays if and only if one of its symbols is given m |
| KconfigExamples.EarlierPickStays | atf-20240117-bacca82a8/Kconfiglib/kconfiglib.py:1360-1366 | a configuration in which the user's pick of a choice is still there after loading a file that gives m to its symbol |
| KconfigWriteMeaning.LineMeaning | atf-20240117-bacca82a8/Kconfiglib/kconfiglib.py:4526-4549 | a symbol has a line if and only if it is written; the line is `CONFIG_X=` with y or m, with the number or with the escaped text in quotes, or `# CONFIG_X is not set` for n |
| KconfigWriteMeaning.FileMeaning | atf-20240117-bacca82a8/Kconfiglib/kconfiglib.py:1583-1652 | a written file consists of the lines of the symbols that are written, one for each, in the order of the configuration |
| KconfigWriteMeaning.WrittenMeaning | atf-20240117-bacca82a8/Kconfiglib/kconfiglib.py:1708-1728 | the minimal configuration has a line for a written symbol if and only if it is more visible than selected or in a choice, does not have its default value, and is not a bool symbol at y that its non-optional choice selects by default |
| KconfigRoundTrip.VisibleMeetsDeps | atf-20240117-bacca82a8/Kconfiglib/kconfiglib.py:3637-3687 | a visible symbol has its direct dependencies met |
| KconfigRoundTrip.StrDefaultAgrees | atf-20240117-bacca82a8/Kconfiglib/kconfiglib.py:4918-4951 | the default of the minimal configuration is the value a visible bool, tristate or string symbol has without a user value |
| KconfigRoundTrip.OwnDefaultAgrees | atf-20240117-bacca82a8/Kconfiglib/kconfiglib.py:4363-4394 | for int and hex symbols that value is the default clamped into the active range |
| KconfigSaveLoad.AssigningKeepsNumbers | atf-20240117-bacca82a8/Kconfiglib/kconfiglib.py:4558-4645 | assigning never sets a text that is no number for an int or hex symbol |
| KconfigRoundTrip.FullRoundTrip | atf-20240117-bacca82a8/Kconfiglib/kconfiglib.py:1583-1652 | writing every line and loading the file in place of any configuration reproduces every value, visibility, selection and assignable set, for symbols of all types and non-optional bool choices, unless a symbol is limited to m |
| KconfigRoundTrip.FullRoundTripExact | atf-20240117-bacca82a8/Kconfiglib/kconfiglib.py:1583-1652 | it reproduces everything if and only if no symbol is y by its defaults while visible at m only and neither selected nor implied to y |
| KconfigRoundTrip.ModulesOff | atf-20240117-bacca82a8/Kconfiglib/kconfiglib.py:6286-6313 | with MODULES at n, or without tristate symbols, there is no such symbol |
| KconfigExamples.LimitedChanges | atf-20240117-bacca82a8/Kconfiglib/kconfiglib.py:4456-4470 | a configuration in which a tristate symbol does not get its value back |
| KconfigRoundTrip.MinimalRoundTrip | atf-20240117-bacca82a8/Kconfiglib/kconfiglib.py:1695-1730 | the minimal configuration reproduces everything when it loses no value |
| KconfigRoundTrip.MinimalRoundTripExact | atf-20240117-bacca82a8/Kconfiglib/kconfiglib.py:1695-1730 | the minimal configuration reproduces everything if and only if no visible symbol outside choices that is selected as far as it is visible has a value other than its default: such a symbol is left out as one that cannot be changed |
| KconfigExamples.TextLost | atf-20240117-bacca82a8/Kconfiglib/kconfiglib.py:1708-1713 | a configuration whose minimal configuration loses the value of a string symbol |
| KconfigLoops.WhiteSet | atf-20240117-bacca82a8/Kconfiglib/kconfiglib.py:6559-6632 | marking an unvisited node lowers the count of unvisited nodes by one, which ends the search |
| KconfigLoopProofs.SymRight | atf-20240117-bacca82a8/Kconfiglib/kconfiglib.py:6559-6632 | the search of a symbol returns a chain of dependents from a node on the way to the symbol, or raises a loop, or leaves the symbol marked as done |
| KconfigLoopProofs.ChoiceRight | atf-20240117-bacca82a8/Kconfiglib/kconfiglib.py:6634-6665 | the same for the search of a choice, with the symbol it was entered from left out |
| KconfigLoopProofs.RaisedIsLoop | atf-20240117-bacca82a8/Kconfiglib/kconfiglib.py:6668-6714 | whatever is raised is a cycle that contains a dependency, never just a choice and its symbols; and no search ends with a part of a loop |
| KconfigLoopSearch.LoopSearch.CheckDepLoopSym | atf-20240117-bacca82a8/Kconfiglib/kconfiglib.py:6559-6632 | the search with marks updated in place is the specified one |
| KconfigLoopSearch.LoopSearch.CheckDepLoopChoice | atf-20240117-bacca82a8/Kconfiglib/kconfiglib.py:6634-6665 | the search of a choice with marks updated in place is the specified one |
| KconfigLoopSearch.LoopSearch.CheckAllSymbols | atf-20240117-bacca82a8/Kconfiglib/kconfiglib.py:1116-1120 | searching all symbols raises only cycles; without choices, and whenever no choice symbol leads to one listed before it, it is silent if and only if there is none; with one choice it is silent if and only if the graph is untangled |
| KconfigLoopTimes.SilentTimes | atf-20240117-bacca82a8/Kconfiglib/kconfiglib.py:6559-6665 | a silent search finishes every symbol after its dependents, the symbols of a choice in their order and before it, and the one through which the choice was entered after it but its dependents before all the others |
| KconfigLoopTimes.SilentMeansAcyclic | atf-20240117-bacca82a8/Kconfiglib/kconfiglib.py:6559-6632 | a silent search leaves no cycle of dependencies between symbols, with or without choices |
| KconfigLoopTimes.SilentRanks | atf-20240117-bacca82a8/Kconfiglib/kconfiglib.py:1116-1120 | after a silent search the symbols can be ranked with each below its dependents; choices have no place in this ranking |
| KconfigLoopTimes.ChoiceFreeExact | atf-20240117-bacca82a8/Kconfiglib/kconfiglib.py:6559-6714 | without choices a loop is raised if and only if there is one, and the raised tuple is one |
| KconfigLoopGuard.SilenceExact | atf-20240117-bacca82a8/Kconfiglib/kconfiglib.py:6559-6714 | with any number of choices: the search is silent and no choice symbol leads, around its choice, to one listed before it, if and only if there is no loop at all, through choices included |
| KconfigLoopGuard.OrderExact | atf-20240117-bacca82a8/Kconfiglib/kconfiglib.py:6583-6590 | symbols and choices can be ordered with dependents later and the symbols of a choice right after it if and only if the search is silent and no choice symbol leads to one listed before it |
| KconfigLoopOrder.EvaluationOrder | atf-20240117-bacca82a8/Kconfiglib/kconfiglib.py:3466-3539 | a configuration has the order that its values rest on (`WF`) if and only if the loop detection on its dependency graph is silent and no choice symbol leads to one listed before it |
| KconfigEntrance.PathNotSilent | atf-20240117-bacca82a8/Kconfiglib/kconfiglib.py:6599-6617 | when a choice symbol leads to the one through which the choice is entered, the search along the way to the choice is not silent |
| KconfigOneChoice.OneChoiceExact | atf-20240117-bacca82a8/Kconfiglib/kconfiglib.py:6559-6665 | with one choice the search is silent if and only if there is no cycle of dependencies, no symbol of the choice leads to the choice, and each that leads to another is listed after it and not to the one through which the choice is entered |
| KconfigOneChoice.AroundExact | atf-20240117-bacca82a8/Kconfiglib/kconfiglib.py:6583-6590 | with one choice, leading around the choice is leading by dependencies |
| KconfigOneChoice.ChoiceLoopMissed | atf-20240117-bacca82a8/Kconfiglib/kconfiglib.py:6634-6656 | two symbols of a choice, one depending on the other through a third symbol, are on a loop through the choice, which the search misses if and only if the dependent symbol is listed before the other one |
| KconfigParsing.ReadsPrinted | atf-20240117-bacca82a8/Kconfiglib/kconfiglib.py:3376-3460 | parsing the tokens of a printed expression consumes them all and gives the expression with its chains of && and || associated to the right, m read as m && MODULES if asked for |
| KconfigParsing.PrintsSame | atf-20240117-bacca82a8/Kconfiglib/kconfiglib.py:6060-6101 | association to the right does not change the printed expression |
| KconfigParsing.PrintDetermines | atf-20240117-bacca82a8/Kconfiglib/kconfiglib.py:6060-6101 | two expressions print the same if and only if they differ in association only |
| KconfigGrammar.ParsesExactly | atf-20240117-bacca82a8/Kconfiglib/kconfiglib.py:3376-3460 | the parser reads an expression up to a token if and only if one is written there in the grammar of names, comparisons, !, parentheses, && and || and does not go on, and reads it as what it means; any tokens, not just printed ones |
| KconfigGrammar.MalformedExactly | atf-20240117-bacca82a8/Kconfiglib/kconfiglib.py:3376-3460 | tokens are malformed if and only if no expression is written there |
| KconfigGrammar.PrintedForm | atf-20240117-bacca82a8/Kconfiglib/kconfiglib.py:6060-6101 | the printed tokens are those of the one form that has parentheses just around operands of ! that are not names and operands of && and || that are chains of the other operator |
| KconfigParser.Parser.CheckToken | atf-20240117-bacca82a8/Kconfiglib/kconfiglib.py:2587-2593 | the next token is removed just when it is the expected one |
| KconfigParser.Parser.Expression | atf-20240117-bacca82a8/Kconfiglib/kconfiglib.py:3376-3415 | the parser that advances an index returns what the grammar says, or raises an error just when the expression is malformed |
| KconfigParser.Parser.AndExpression | atf-20240117-bacca82a8/Kconfiglib/kconfiglib.py:3417-3424 | the same for operands of || |
| KconfigParser.Parser.FactorExpression | atf-20240117-bacca82a8/Kconfiglib/kconfiglib.py:3426-3460 | the same for operands of && |
| KconfigParser.ReadPrinted | atf-20240117-bacca82a8/Kconfiglib/kconfiglib.py:3376-3460 | running the parser on the printed expression returns it associated to the right |
| KconfigParser.RightAssocValue | atf-20240117-bacca82a8/Kconfiglib/kconfiglib.py:5988-6042 | association to the right keeps the value in every configuration and for every user input |
| KconfigParser.RewriteValue | atf-20240117-bacca82a8/Kconfiglib/kconfiglib.py:3433-3442 | reading m as m && MODULES changes the value of no expression unless MODULES is n, and then gives it the value it has with n in place of m |
| KconfigParser.ReadBackValue | atf-20240117-bacca82a8/Kconfiglib/kconfiglib.py:6060-6101 | an expression printed and read again has its value, and prints the same |
| KconfigParser.SplitValue | atf-20240117-bacca82a8/Kconfiglib/kconfiglib.py:6131-6173 | the operands that splitting gives are not to be split further, and their smallest (for &&) or largest (for ||) value is the value of the expression |
| KconfigParser.SplitReadBack | atf-20240117-bacca82a8/Kconfiglib/kconfiglib.py:6131-6173 | an && or || chain read back has the same operands in order, each associated to the right |
| KconfigParser.MakeAndValue | atf-20240117-bacca82a8/Kconfiglib/kconfiglib.py:2863-2875 | the simplifying constructor of && keeps the value |
| KconfigParser.MakeOrValue | atf-20240117-bacca82a8/Kconfiglib/kconfiglib.py:2877-2889 | the simplifying constructor of || keeps the value |
| KconfigParser.Simplified | atf-20240117-bacca82a8/Kconfiglib/kconfiglib.py:2863-2889 | with a constant n or y as an operand the result is one of the operands, and otherwise both are joined |
| KconfigMenu.FlatKeepsOrder | atf-20240117-bacca82a8/Kconfiglib/kconfiglib.py:6476-6502 | flattening keeps the definition order of all nodes |
| KconfigMenu.Reparent | atf-20240117-bacca82a8/Kconfiglib/kconfiglib.py:6490-6496 | all nodes of a list get the new parent, nothing else changes, and the last node is found |
| KconfigMenu.Splice | atf-20240117-bacca82a8/Kconfiglib/kconfiglib.py:6488-6500 | the children of a node are linked in behind it, before its old next sibling, with its parent as theirs |
| KconfigMenu.Flatten | atf-20240117-bacca82a8/Kconfiglib/kconfiglib.py:6476-6502 | rewriting the links of a child list in place gives the flattened list, correctly linked, and touches no other node |
| KconfigMenuFinish.RemoveIfs | atf-20240117-bacca82a8/Kconfiglib/kconfiglib.py:6505-6528 | rewriting the links in place gives the list without its if nodes, correctly linked below its node |
| KconfigMenuFinish.LevelOrder | atf-20240117-bacca82a8/Kconfiglib/kconfiglib.py:6476-6528 | flattening and then removing leaves the definition order of a level unchanged except that all if nodes are gone |
| KconfigMenuFinish.FinishedOrder | atf-20240117-bacca82a8/Kconfiglib/kconfiglib.py:3606-3624 | finishing every level, the lower ones first, leaves the definition order of the whole tree without the if nodes of any level |
| KconfigMenuParents.FlattenedParents | atf-20240117-bacca82a8/Kconfiglib/kconfiglib.py:6476-6502 | after flattening a list, nodes of the level without an ancestor in it that has a prompt or is a choice are at its top, and all others have the parent they had |
| KconfigMenuParents.FinishedParents | atf-20240117-bacca82a8/Kconfiglib/kconfiglib.py:3594-3624 | in the finished tree the parent of a node is its closest original ancestor that has a prompt or is a choice, or else the top node; and the nodes are all but the if nodes |
| KconfigMenuParents.FinishedLinks | atf-20240117-bacca82a8/Kconfiglib/kconfiglib.py:3594-3624 | after finishing in place the parent link of every node leads there |
| KconfigMenuWalk.Finish | atf-20240117-bacca82a8/Kconfiglib/kconfiglib.py:3594-3624 | rewriting a whole tree in place gives the finished tree with next, child and parent links repaired |
| KconfigMenuWalk.Climb | atf-20240117-bacca82a8/Kconfiglib/kconfiglib.py:1941-1949 | climbing over parent links finds the next node of the closest ancestor that has one, or that nothing is left |
| KconfigMenuWalk.NextNode | atf-20240117-bacca82a8/Kconfiglib/kconfiglib.py:1935-1949 | the pointer walk steps to the next node in definition order, or stops when nothing is left |
| KconfigMenuWalk.NodeIter | atf-20240117-bacca82a8/Kconfiglib/kconfiglib.py:1907-1956 | the pointer walk ends and visits exactly the nodes of the tree in definition order |
| KconfigMenuWalk.FinishAndWalk | atf-20240117-bacca82a8/Kconfiglib/kconfiglib.py:1907-1956 | after finishing, the walk visits the nodes of the original tree in definition order without the if nodes, each once |
| FwuMonitor.Bl1Fwu.AddLoadedId | atf-20240117-bacca82a8/bl1/bl1_fwu.c:120-139 | an image already in the table stays where it is, a new one takes the first free slot, and it fails just when there is none |
| FwuMonitor.Bl1Fwu.RemoveLoadedId | atf-20240117-bacca82a8/bl1/bl1_fwu.c:145-158 | the image's slot is freed, and it fails just when the image is not in the table |
| FwuMonitor.Bl1Fwu.CheckOverlaps | atf-20240117-bacca82a8/bl1/bl1_fwu.c:164-219 | the loop over the table finds what the specified comparison finds, failing assertions included |
| FwuMonitor.Bl1Fwu.ImageCopy | atf-20240117-bacca82a8/bl1/bl1_fwu.c:224-362 | copying updates descriptors, table and memory as specified, error by error |
| FwuMonitor.Bl1Fwu.ImageAuth | atf-20240117-bacca82a8/bl1/bl1_fwu.c:367-498 | authentication updates descriptors, table and memory as specified, error by error |
| FwuMonitor.Bl1Fwu.ImageExecute | atf-20240117-bacca82a8/bl1/bl1_fwu.c:503-546 | starting an image updates the state as specified |
| FwuMonitor.Bl1Fwu.ImageResume | atf-20240117-bacca82a8/bl1/bl1_fwu.c:552-614 | resuming the other world updates the state as specified |
| FwuMonitor.Bl1Fwu.ImageDone | atf-20240117-bacca82a8/bl1/bl1_fwu.c:619-671 | the end of a secure image updates the state as specified |
| FwuMonitor.Bl1Fwu.ImageReset | atf-20240117-bacca82a8/bl1/bl1_fwu.c:692-745 | resetting an image updates descriptors, table and memory as specified |
| FwuMonitor.Bl1Fwu.Handle | atf-20240117-bacca82a8/bl1/bl1_fwu.c:58-100 | every allowed request that does not stop the machine keeps the protocol's invariant |
| FwuSafety.InitialInv | atf-20240117-bacca82a8/bl1/bl1_fwu.c:53-114 | the invariant holds at boot |
| FwuSafety.AddThenRemove | atf-20240117-bacca82a8/bl1/bl1_fwu.c:120-158 | adding an image and removing it again restores the table |
| FwuSafety.ClearIsApart | atf-20240117-bacca82a8/bl1/bl1_fwu.c:164-219 | an image that passes the overlap check has no address in common with any active secure image |
| FwuSafety.StepInv | atf-20240117-bacca82a8/bl1/bl1_fwu.c:224-745 | every allowed request keeps: each active image fills one slot and each filled slot names an active image; 0 < copied <= size <= maximum with copied < size just in COPYING; active secure images are pairwise disjoint; the secure world runs just when the last started image is EXECUTED, and no other secure image is |
| FwuContents.CopyEffect | atf-20240117-bacca82a8/bl1/bl1_fwu.c:224-362 | an accepted copy moves one clipped block behind what has been copied, starting afresh for an image in RESET |
| FwuContents.StepContents | atf-20240117-bacca82a8/bl1/bl1_fwu.c:224-745 | every allowed request keeps: the copied part of an image not yet started is the concatenation of its accepted blocks, and an authenticated image holds the bytes found authentic, whatever is done to other images |
| FwuContents.Erased | atf-20240117-bacca82a8/bl1/bl1_fwu.c:465-744 | after a reset or a failed authentication no byte of the image is left and it is not in the table |
| FwuContents.RunSafe | atf-20240117-bacca82a8/bl1/bl1_fwu.c:58-100 | all of this holds in every state of every allowed run |
| FwuContents.FwuRunCorrect | atf-20240117-bacca82a8/bl1/bl1_fwu.c:224-546 | in every allowed run from boot a COPIED image is exactly its accepted blocks, as many bytes as its first copy asked for, and an image is started only with the bytes found authentic |
| FwuStops.OverlapsIs | atf-20240117-bacca82a8/bl1/bl1_fwu.c:164-219 | the check fails its assertion just when a loaded one-byte or wrapping image comes before the first overlapping one, and reports an overlap just when an overlapping one comes before the first such image |
| FwuStops.OverlapExact | atf-20240117-bacca82a8/bl1/bl1_fwu.c:164-219 | with loaded images of at least two bytes that do not wrap, the check never fails and reports an overlap if and only if the range of the image meets that of another loaded one |
| FwuStops.StopsExactly | atf-20240117-bacca82a8/bl1/bl1_fwu.c:224-745 | the exact reason for each request to stop the machine in a reachable state; the assertions on the paths of secure callers of resume and sec_image_done never fire |
| FwuStops.ResetThenResumeStops | atf-20240117-bacca82a8/bl1/bl1_fwu.c:571-586 | the normal world can reset the interrupted secure image, and its next resume then fails an assertion |
| FwuStops.CopyKeepsExactly | atf-20240117-bacca82a8/bl1/bl1_fwu.c:256-361 | a copy request that is answered keeps the invariant if and only if it does not end in a failure of the pre-load handler |
| FwuStops.FailedPreLoadBlocks | atf-20240117-bacca82a8/bl1/bl1_fwu.c:336-349 | after a failing pre-load handler an image in RESET stays registered, and the next request, if it is a first copy of another image, is refused or stops the machine |
| FwuStops.RetryMakesUp | atf-20240117-bacca82a8/bl1/bl1_fwu.c:336-361 | repeating a request whose pre-load handler failed, with one that succeeds, leads to the same state as if it had succeeded at once |
| FwuMeaning.CheckMeaning | atf-20240117-bacca82a8/bl1/bl1_fwu.c:164-219 | the overlap check passes, refuses or fails its assertion according to whether no loaded image is in the way, the first one in the table that matters has an address in common, or it does not end behind its base |
| FwuMeaning.CopyAccepted | atf-20240117-bacca82a8/bl1/bl1_fwu.c:224-362 | a copy request succeeds if and only if the normal world asks for a secure image in RESET or COPYING, the block is sound and mapped, the image is in the table or there is a free slot, and, for the first block, the size is sound, no image is in the way and the pre-load handler succeeds |
| FwuMeaning.CopyRefused | atf-20240117-bacca82a8/bl1/bl1_fwu.c:224-362 | the exact condition of each error code of a copy request, and of the failing assertion |
| FwuMeaning.CopyChanges | atf-20240117-bacca82a8/bl1/bl1_fwu.c:318-361 | an accepted copy moves as many bytes of the block as are missing behind what has been copied, completes the image if and only if nothing is missing then, enters it into the table, and changes nothing else |
| FwuMeaning.RefusalChanges | atf-20240117-bacca82a8/bl1/bl1_fwu.c:224-349 | a refused copy changes no memory, no state and no other image; the size is recorded only for a first copy with a sound size, and only a failing pre-load handler enters the image into the table |
| FwuMeaning.BlocksComplete | atf-20240117-bacca82a8/bl1/bl1_fwu.c:272-361 | any sound blocks that together are as large as what is missing, and would not be without the last one, are all accepted and bring the image to COPIED |
| FwuMeaning.AuthAnswers | atf-20240117-bacca82a8/bl1/bl1_fwu.c:367-498 | the exact condition of success, of each error code and of the stop of an authentication request |
| FwuMeaning.AuthChanges | atf-20240117-bacca82a8/bl1/bl1_fwu.c:438-498 | a success leaves the image AUTHENTICATED; a failure wipes a copied image and leaves it in RESET; nothing else changes |
| FwuMeaning.AuthTable | atf-20240117-bacca82a8/bl1/bl1_fwu.c:438-475 | an authenticated image is in the table; after a failure a copied image has left it, and otherwise it is as before |
| FwuMeaning.ExecuteAnswers | atf-20240117-bacca82a8/bl1/bl1_fwu.c:503-546 | starting an image succeeds if and only if the normal world asks for an authenticated secure executable one, and then makes it the running one; otherwise it is refused and changes nothing |
| FwuMeaning.ResumeAnswers | atf-20240117-bacca82a8/bl1/bl1_fwu.c:552-614 | when resuming is refused, stops the machine or switches the world, and what it changes |
| FwuMeaning.DoneAnswers | atf-20240117-bacca82a8/bl1/bl1_fwu.c:619-671 | the end of a secure image is refused for the normal world; for the secure world the image goes to RESET and leaves the table, no image is recorded as started, and the normal world runs |
| FwuMeaning.NotResumed | atf-20240117-bacca82a8/bl1/bl1_fwu.c:552-671 | after the end of a secure image the normal world cannot resume it: the request is refused |
| FwuMeaning.ResetAnswers | atf-20240117-bacca82a8/bl1/bl1_fwu.c:692-745 | when a reset is refused, has nothing to do, stops the machine, or wipes what has been copied and takes the image out of the table |
| FwuExamples.OneByteStops | atf-20240117-bacca82a8/bl1/bl1_fwu.c:164-219 | a run from boot in which a one-byte image is accepted and a first copy of another image then stops the machine |
| FwuExamples.PreLoadFails | atf-20240117-bacca82a8/bl1/bl1_fwu.c:336-349 | a request at boot whose pre-load handler fails, after which a first copy of another image stops the machine |
| FwuStops.SecureAuthDisjoint | atf-20240117-bacca82a8/bl1/bl1_fwu.c:378-458 | an image authenticated in place for the secure world keeps the images disjoint if and only if the range at its base is free |
| FwuExamples.SecureAuthOverlaps | atf-20240117-bacca82a8/bl1/bl1_fwu.c:378-458 | a run from boot in which a started image has another one authenticated in place ends with two overlapping registered images |
| FwuExamples.ResumeStops | atf-20240117-bacca82a8/bl1/bl1_fwu.c:552-614 | a run from boot in which a started image is interrupted and reset, after which the next resume request stops the machine |
| Bitwise.TopIsCtz | atf-20240117-bacca82a8/bl31/ehf.c:80-87 | the number of trailing zeros is the top of the stack of set bits |
| Bitwise.Pops | atf-20240117-bacca82a8/bl31/ehf.c:194-195 | `x & (x - 1)` pops the top |
| Bitwise.Pushes | atf-20240117-bacca82a8/bl31/ehf.c:128-129 | setting a bit below the lowest set bit pushes it |
| EhfStack.ActivatePushes | atf-20240117-bacca82a8/bl31/ehf.c:99-154 | an accepted activation pushes its index above the top and leaves the mask no laxer than the top |
| EhfStack.DeactivatePops | atf-20240117-bacca82a8/bl31/ehf.c:166-218 | an accepted deactivation pops its index, restores the starting mask when nothing is left, and leaves the mask no laxer than the top |
| EhfStack.ActivateExact | atf-20240117-bacca82a8/bl31/ehf.c:99-154 | an activation succeeds if and only if its priority is above the running one, registered, above the top and above the mask |
| EhfStack.DeactivateExact | atf-20240117-bacca82a8/bl31/ehf.c:166-218 | a deactivation succeeds if and only if its priority is above the running one and its index is the top: the check of the mask never trips |
| EhfStack.NestedMaskStricter | atf-20240117-bacca82a8/bl31/ehf.c:201-209 | a nested deactivation leaves a mask strictly stricter than the next priority |
| EhfStack.AfterNested | atf-20240117-bacca82a8/bl31/ehf.c:201-209 | after it an activation succeeds only above the priority just deactivated, and activating that priority again panics |
| EhfExamples.NestedMaskStays | atf-20240117-bacca82a8/bl31/ehf.c:201-209 | a run in which the mask stays at the priority just deactivated although a lower one is on top, and activating it again panics |
| EhfStack.RunRefines | atf-20240117-bacca82a8/bl31/ehf.c:99-218 | in every run that does not fail, the word is the strictly ordered stack of outstanding activations, the mask is never laxer than its top, and the mask is back at its starting value when none is left |
| EhfStack.StaysInWord | atf-20240117-bacca82a8/bl31/ehf.c:128-195 | the word stays within 32 bits |
| EhfMeaning.StackMeaning | atf-20240117-bacca82a8/bl31/ehf.c:78-87 | the stack holds exactly the numbers of the bits that are set, in increasing order |
| EhfMeaning.IndexMeaning | atf-20240117-bacca82a8/bl31/ehf.c:36-64 | the index of a priority is the quotient of its lower 7 bits by the number of priorities to an index |
| EhfMeaning.ActivateMeaning | atf-20240117-bacca82a8/bl31/ehf.c:99-154 | in any state: when an activation succeeds, fails the assertion or panics; on success it pushes its index, sets the mask to the priority, and the first one remembers the mask there was |
| EhfMeaning.DeactivateMeaning | atf-20240117-bacca82a8/bl31/ehf.c:166-218 | in any state: when a deactivation succeeds, fails the assertion or panics; on success it pops its index and sets the mask to the remembered one if nothing is left, and to the priority otherwise |
| EhfMeaning.SwitchesWait | atf-20240117-bacca82a8/bl31/ehf.c:231-313 | while a secure interrupt runs or a priority is active, leaving and entering the normal world change nothing, and preemption is not allowed |
| EhfMeaning.SwitchesUndo | atf-20240117-bacca82a8/bl31/ehf.c:231-359 | otherwise leaving the normal world stashes its mask and sets the highest one of the normal range, and entering it or a grant undoes this exactly |
| EhfMeaning.SwitchFailures | atf-20240117-bacca82a8/bl31/ehf.c:231-359 | in any state with no activation outstanding: when world switches and grants fail, and how |
| EhfWorld.StepKeeps | atf-20240117-bacca82a8/bl31/ehf.c:231-359 | every event keeps the relation of stashed, starting and current mask |
| EhfWorld.FailsExactly | atf-20240117-bacca82a8/bl31/ehf.c:231-359 | world switches never fail; a grant fails the assertion if and only if it is the second one and panics if and only if a priority is active; activations and deactivations fail as above |
| EhfWorld.NormalMaskRestored | atf-20240117-bacca82a8/bl31/ehf.c:274-388 | entering the normal world with no activation outstanding gives back the stashed mask; preemption is reported as allowed if and only if it has been granted and no priority is active |
| EhfWorld.ReturnAnswersExit | atf-20240117-bacca82a8/bl31/ehf.c:231-313 | in every run from boot, that mask is the one of the exit which the return answers |
| EhfMonitor.Ehf.HighestActiveIdx | atf-20240117-bacca82a8/bl31/ehf.c:80-87 | the result is the top of the stack, or -1 when it is empty |
| EhfMonitor.Ehf.ActivatePriority | atf-20240117-bacca82a8/bl31/ehf.c:99-154 | activation updates the word and both masks as specified |
| EhfMonitor.Ehf.DeactivatePriority | atf-20240117-bacca82a8/bl31/ehf.c:166-218 | deactivation updates the word and the mask as specified |
| EhfMonitor.Ehf.ExitedNormal | atf-20240117-bacca82a8/bl31/ehf.c:231-261 | leaving the normal world stashes and sets the mask as specified |
| EhfMonitor.Ehf.EnteringNormal | atf-20240117-bacca82a8/bl31/ehf.c:274-313 | entering the normal world restores the mask as specified |
| EhfMonitor.Ehf.AllowPreemption | atf-20240117-bacca82a8/bl31/ehf.c:326-359 | a grant sets the mask and clears the stash as specified |
| EhfMonitor.Ehf.Serve | atf-20240117-bacca82a8/bl31/ehf.c:99-218 | a list of activations and deactivations ends in the state of the specified run, or with its first failure |
| PtGenChs.ChsUndone | tools/ptgen.c:212-227 | for 1 to 256 heads and 1 to 63 sectors the three bytes determine the sector number if and only if it is below 1024 * heads * sectors |
| PtGenLayout.RoundsToCyl | tools/ptgen.c:230-235 | rounding gives the next cylinder boundary strictly above: a position on a boundary moves by a whole cylinder |
| PtGenLayout.RoundsToKb | tools/ptgen.c:238-240 | rounding gives the first aligned position that is not below |
| PtGenLayout.AllPlaced | tools/ptgen.c:351-459 | in every accepted layout each partition starts where it was asked for or at the first suitable position, with the size asked for |
| PtGenLayout.Disjoint | tools/ptgen.c:351-459 | in every accepted layout the partitions increase, are pairwise disjoint with the demanded gap before each, and lie between the first sector and the end |
| PtGenLayout.MbrPartition | tools/ptgen.c:351-390 | every MBR partition has a track before it, ends on a cylinder boundary when no alignment is set, and is determined by its packed bytes if and only if it ends within 1024 cylinders |
| PtGenTables.PlacePart | tools/ptgen.c:362-384 | one partition is rejected, skipped or placed as specified |
| PtGenTables.GenGptable | tools/ptgen.c:429-531 | the GUID partition table built entry by entry is the specified one, or none |
| PtGenTables.GenPtable | tools/ptgen.c:351-390 | the MBR partition table built entry by entry is the specified one, or none |
| PtGenMeaning.MbrTableRight | tools/ptgen.c:351-390 | entry i is used if and only if partition i exists and is not null-sized, and is active if and only if i + 1 is the number asked for; it starts where it was asked for or at the first suitable place with a track before it, and ends on the first cylinder boundary behind its size, or right there with an alignment |
| PtGenMeaning.MbrAcceptedExactly | tools/ptgen.c:351-390 | a table is generated if and only if there are entries that are right in this sense |
| PtGenMeaning.MbrApart | tools/ptgen.c:351-390 | used entries follow each other with a track between them, and at most one is active |
| PtGenMeaning.MbrPacked | tools/ptgen.c:366-388 | the packed bytes of both ends of a used entry name a head and a sector of the disk, and a reader finds the first or last sector in them if and only if it is within 1024 cylinders |
| PtGenMeaning.GptTableRight | tools/ptgen.c:429-528 | the same for GUID tables: which entries are used, where they start and end and with which GUID, when the last entry is the filler, and what the header says |
| PtGenMeaning.GptAcceptedExactly | tools/ptgen.c:429-528 | a GUID table is generated if and only if there is one that is right in this sense |
| PtGenTables.GptDisjoint | tools/ptgen.c:429-513 | used entries are pairwise disjoint, in the order of the partitions, the filler before all (section 5.3.3 of the UEFI Specification) |
| PtGenTables.GptUsable | tools/ptgen.c:432-528 | used entries lie within the usable sectors and so behind the entry table; the alternate header follows an alternate table behind them; the protective entry ends just before that header (section 5.3.2 of the UEFI Specification) |
| PtGenTables.GptAligned | tools/ptgen.c:450-470 | a partition without an explicit start is aligned, and an entry has exactly the sectors asked for |
| PtGenTables.GuidsDistinct | tools/ptgen.c:470-513 | used entries have different GUIDs (section 5.3.3 of the UEFI Specification) |
| PtGenTables.FillerCoversGap | tools/ptgen.c:507-513 | the gap before the first partition is covered if and only if there is none or the first partition asked for is not null-sized |
| PtGenTables.GapLeftOpen | tools/ptgen.c:507-513 | a null-sized partition followed by one with a start leaves the gap before that one open |
| CrcTable.Crc32.Init | tools/ptgen.c:246-256 | the table holds for each byte what eight steps make of it |
| CrcTable.Crc32.GptCrc32 | tools/ptgen.c:258-271 | the result is the bit-by-bit check sequence of the buffer |
| CrcProofs.FeedIsSteps | tools/ptgen.c:267-268 | looking a byte up is the same as taking its bits one by one |
| CrcProofs.PolynomialReversed | tools/ptgen.c:252-252 | the table's constant is the polynomial of IEEE 802.3 with its coefficients reversed |
| CrcProofs.GptCrcIsReference | tools/ptgen.c:258-271 | on every buffer the CRC is that of section 3.2.9 of IEEE 802.3, computed with a shift register |
| CrcProofs.BurstDetected | tools/ptgen.c:258-271 | two buffers that differ within at most four consecutive bytes never have the same CRC |
| CrcTable.TfCrc32 | atf-20240117-bacca82a8/common/tf_crc32.c:27-45 | the loop over the buffer accumulates as specified |
| CrcProofs.TfCrcChains | atf-20240117-bacca82a8/common/tf_crc32.c:27-45 | seeded with the CRC of a prefix, the accumulation gives the CRC of the concatenation |
| CrcProofs.TfCrcIsGptCrc | atf-20240117-bacca82a8/common/tf_crc32.c:27-45 | seeded with 0, it gives the same CRC as the partition table generator |
| HandOff.HandOffList.NodeIndex | atf-20240117-bacca82a8/common/desc_image_load.c:53-64 | the position of the first descriptor with the image id, or -1 if there is none |
| HandOff.ChainNoDuplicates | atf-20240117-bacca82a8/common/desc_image_load.c:130-207 | a chain of hand-offs that is part of a complete one has no duplicates |
| HandOff.CompleteMeaning | atf-20240117-bacca82a8/common/desc_image_load.c:53-207 | a chain is complete if and only if it starts at the first executable image marked as first, each image names the id of the next one, found from the start of the array and not at its first place, all are executable, and the last one names none |
| HandOff.Pigeonhole | atf-20240117-bacca82a8/common/desc_image_load.c:157-199 | a list of positions without duplicates is not longer than the array |
| HandOff.Revisited | atf-20240117-bacca82a8/common/desc_image_load.c:171-177 | hand-offs that come back to an image are not part of a complete chain |
| HandOff.TooLong | atf-20240117-bacca82a8/common/desc_image_load.c:157-202 | hand-offs that go on after as many images as there are descriptors are not part of a complete chain |
| HandOff.HandOffList.LinkImages | atf-20240117-bacca82a8/common/desc_image_load.c:130-207 | the list is built if and only if the hand-offs from the first executable image form a chain of executable images that ends and does not re-enter the first descriptor; then exactly this chain is linked, without duplicates; every other case fails an assertion |

## Left out

- Kconfig: tristate and optional choices in the two round trips; they are in the cache, choice and expression work.
- Kconfig: warnings, `option env`, `defconfig_list`, preprocessor macros, help texts, headers, menu comments, and prefixes other than `CONFIG_`; they do not take part in values.
- Kconfig: cached values are one table instead of a field per item, with the same entries and the same points of invalidation; a change of MODULES empties the whole table, where the source keeps the values of undefined symbols, which never change.
- Kconfig: creation of implicit submenus (kconfiglib.py lines 3594-3604) and iteration over unique symbols only.
- Kconfig: tokenizing; the parser starts from tokens, and the printed form is a list of tokens.
- Kconfig: for several choices no condition on the graph alone is given for when the search is silent, as it is for one choice; when its silence means that there is no loop is exact for any number.
- KconfigFiles.ConfigContents: does not give the header and the menu comments of the written file, which are skipped on loading.
- KconfigRoundTrip.FullRoundTrip: is not about int and hex symbols whose texts end in white space, which is stripped on loading.
- PtGenTables.GenGptable: does not give types, attributes and names of entries, hybrid MBR entries, and the checksums in the header.
- PtGenTables.GenPtable: does not give partition types and the disk signature.
- Firmware update: caches, contexts, logging and the arguments passed through; image ids are unbounded numbers.
- Exception priorities: the interrupt handler itself and registration of handlers; runs in which an interrupt is being handled while worlds switch.
- Partition tables: names, attributes, types, hybrid MBR entries, a 128th partition that shares its entry with the filler, the byte layout of header and entries, and writing the file.
- CRC: the header and table checksums as bytes of a file; the CRC is about any buffer.
- Hand-off list: parameters other than the links, and the list of loadable images.
- File and terminal input and output of all tools, user interfaces, collectors and drivers.
