# Redcar commands, modelled in Dafny

A model of Redcar's command core (`plugins2/core/command.rb`). It covers:

- **Input resolution.** A command reads its input from the active tab. The kinds are selected text, document, line, word, character, scope and nothing. The primary kind wins unless it reads as nil or as the empty string; then the fallback kind is read.
- **Output dispatch.** `direct_output` writes a command's output back into the tab by output kind. The kinds are replace document, line, selection or input; insert at the cursor, after the selection or after the input; and the kinds that open other tabs or widgets. Every Ruby symbol alias is normalised to one closed enumeration.
- **Commands.** An inline command forwards its block's value to `direct_output`. A shell command feeds its input to its script, picks the interpreter from a shebang, and forwards what the script printed.
- **CommandHistory.** `CommandHistory` holds history and a recording flag. The wrapper the registrar installs around every declared method records the command, switches recording off for the body, and then switches it on.
- **CommandBuilder.** The registrar collects annotations inside `UserCommands { ... }`. On each method declaration it builds an inline command, publishes it under `"<class>/<scope>/<method>"` with double slashes collapsed, registers its key and menu item, and clears the annotations.

The files:

| file | module | contents |
|---|---|---|
| `wrappers.dfy` | `Wrappers` | `Option`, and `Outcome` for the registrar's misuse error |
| `text.dfy` | `Text` | newline offsets, line start/end/text, Ruby's `rstrip`/`lstrip` |
| `buffers.dfy` | `Buffers` | the tab as a value (`Buffer`) and as an object (`Tab`) with the primitive operations `command.rb` calls |
| `commands.dfy` | `Commands` | the command record, input resolution, `direct_output` (a method on `Tab`, proved against the function `Output`), the inline and shell command bodies |
| `history.dfy` | `History` | `CommandHistory` as a class; the wrapper as written and with the flag restored; invocation trees |
| `builder.dfy` | `Builder` | annotations, command names, key names, the registrar's state function and the `Registrar` class |

The tab's primitives are not defined in `command.rb`, so `Buffers` fixes their meaning:
- `insert` moves every position at or after the insertion point along.
- `delete` pulls later positions back.
- The replace operations delete, then insert.
- Selecting a span whose two bounds meet leaves nothing selected. Selecting never moves the cursor.
- Without a selection, the selection bounds are both the cursor and the selected text is empty.
- A line never includes its newline. The cursor's line is the number of newlines before the cursor.

The widget lookups are passed in as a `Commands.Context` value: whether the cursor is inside a word and where that word lies, and the scope's text and span.

Ruby symbols are `Option<string>`, with `None` for nil.

The wrapper's effect on the history is given by invocation trees (`History.Call`). Each invocation names a method and lists the invocations its body makes. A method the registrar wrapped has an entry in the `wrapped` map.

`singleton_method_added` is the explicit call `Builder.Registrar.Declare`. `alias_method` and `define_method` report a declaration again, and those re-entrant calls happen while `aliasing` is set. The publishing bus, the keymap and the menu builder are modelled as follows:
- The publishing bus is an overwriting map.
- The keymap and the menu builder are logs of their calls.

Where the code behaves unexpectedly, the model follows the code:
- **Primary input.** It is read from `@input` (`command.rb:70-73`), not from the first of `inputs`. `inputs` is what the registrar sets, and nothing in the file assigns `@input`. So a registrar-built command reads no input (`Builder.BuiltCommandReadsNoInput`).
- **Inline commands.** An inline command forwards any string its block returns, the empty string included. Ruby's `""` is true (`command.rb:191`). A block returning nil or `false` forwards nothing; any other value, `true` included, is handed to `direct_output`.
- **Shell commands.** A shell command forwards its standard output even when empty (`command.rb:218`).
- **History bound.** `max` never shortens the history (`command.rb:262-269`).
- **Declared commands' output.** The wrapper ends with the assignment `CommandHistory.recording = true` (`command.rb:344`), so a wrapped method returns `true`, and a registrar-built command hands `true` to `direct_output`, never its method's value (see "## Findings").

## Model

| member | source | states |
|---|---|---|
| `Commands.OutputKindOfSpellings` | plugins2/core/command.rb:108-170 | a symbol selects an output kind exactly when it is one of that kind's `when` spellings, and nil selects no kind |
| `Commands.TargetAgreesWithInputKind` | plugins2/core/command.rb:134-158 | where replace_input or insert_after_input names an input kind, it is the kind `input_by_type` reads for that symbol; `:selection` is read as the selected text but matches none of their branches |
| `Commands.PrimaryInput` | plugins2/core/command.rb:70-73 | the primary input is never the empty string: it is the primary kind's value, or none exactly when that value is nil or `""` |
| `Commands.GetInputRule` | plugins2/core/command.rb:61-106 | `get_input` is the primary value unless that is nil or `""`, and then the fallback value; `valid_input_type` names `@fallback_input` under exactly that condition and `@input` otherwise |
| `Commands.GetInputReadsValidType` | plugins2/core/command.rb:61-106 | `get_input` is always the value of the kind `valid_input_type` names |
| `Commands.LineInputIsCursorLine` | plugins2/core/command.rb:85-86 | the `:line` input is the text between the start and end of the cursor's line, the cursor lies within it, and it holds no newline |
| `Commands.CharacterInput` | plugins2/core/command.rb:93-94 | the `:character` input exists exactly when the cursor is before the end of the text, and is then the one character at the cursor |
| `Commands.SelectionInput` | plugins2/core/command.rb:81-82 | the selected-text input is always present, is the text between the lower and the higher bound, and is empty exactly when nothing is selected |
| `Commands.WordInput` | plugins2/core/command.rb:87-92 | the `:word` input is nil outside a word; inside one it is the middle piece of the inclusive slice between the word bounds, with only whitespace before it and only whitespace or null characters after it, and it neither starts nor ends with whitespace |
| `Text.StripKeepsPiece` | plugins2/core/command.rb:91 | `rstrip.lstrip` keeps one contiguous piece of the text; everything before it is whitespace and everything after it whitespace or null characters |
| `Commands.DirectOutput` | plugins2/core/command.rb:108-171 | `direct_output` on the tab object leaves the tab in the state `Output` gives for the kind and content |
| `Commands.ReplaceInputOn` | plugins2/core/command.rb:134-151 | the replace_input branch on the tab object agrees with `Output` |
| `Commands.InsertAfterInputOn` | plugins2/core/command.rb:156-169 | the insert_after_input branch on the tab object agrees with `Output` |
| `Commands.ReplaceSpan` | plugins2/core/command.rb:144-150 | deleting the scope's span and inserting at its start is replacing that span |
| `Commands.InsertAfterSelected` | plugins2/core/command.rb:158-162 | inserting at the later bound and then selecting both bounds moved along is `InsertAfterSelection` |
| `Commands.InsertAfterCursorLine` | plugins2/core/command.rb:163-168 | the two insertions of the `:line` branch are `InsertAfterLine` |
| `Commands.ReplacementsPlaceContent` | plugins2/core/command.rb:110-117 | replace document makes the text the content; replace line, replace selection and insert at cursor put the content between the unchanged text before and after the replaced span |
| `Commands.AfterSelectedTextOnlyInserts` | plugins2/core/command.rb:122-128 | after_selected_text inserts at the second selection bound, or at the cursor when nothing is selected; the text grows by the content's length, and the text before and after the insertion point is unchanged |
| `Commands.InsertAfterSelectedText` | plugins2/core/command.rb:158-162 | with the selected text as input, insert_after_input puts the content at the larger bound, grows the text by its length, and selects both old bounds moved along by that length |
| `Commands.InsertAfterInputLine` | plugins2/core/command.rb:163-168 | with the line as input, insert_after_input appends a newline and the content on the last line, and otherwise inserts the content at the start of the next line; the text up to the end of the cursor's line and that line's text are unchanged, and the content begins the next line |
| `Commands.ReplaceInputFollowsValidType` | plugins2/core/command.rb:134-151 | replace_input does what replace selection, replace line or replace document does for the kind that was read, replaces the scope's span for `:scope`, and leaves the tab alone for any other kind |
| `Commands.OutputsLeavingTabAlone` | plugins2/core/command.rb:118-155 | snippet, tooltip, new document, HTML and unmatched kinds leave this tab's state unchanged |
| `Commands.BlockArguments` | plugins2/core/command.rb:182-186 | a block is given `get_input` exactly when it takes one argument |
| `Commands.Forwarded` | plugins2/core/command.rb:180-191 | what an inline command forwards is present exactly when the block returned a truthy value, and it is that value; nil, `false` and a raised error forward nothing |
| `Commands.ExecuteInline` | plugins2/core/command.rb:178-192 | InlineCommand#execute reads the input before calling the block and hands `direct_output` what `Forwarded` gives; a forwarded string is applied with the command's output kind to the tab the block left, and otherwise the tab is as the block left it |
| `Commands.ShellCommandLine` | plugins2/core/command.rb:248-254 | the script is run directly exactly when its first two characters are `#!`, and through `/bin/sh` otherwise |
| `Commands.ExecuteShell` | plugins2/core/command.rb:200-219 | ShellCommand#execute writes `get_input` (nothing for nil) to the script, runs it with `shell_command`, and applies `direct_output` to its standard output |
| `History.CommandHistory.constructor` | plugins2/core/command.rb:262-273 | after the module is loaded and `clear` has run, `max` is 50, recording is on and the history has no entries |
| `History.CommandHistory.Record` | plugins2/core/command.rb:265-269 | `record` appends the command exactly when recording is on, leaves the history unchanged otherwise, and never trims to `max` |
| `History.CommandHistory.Clear` | plugins2/core/command.rb:271-273 | `clear` empties the history and changes nothing else |
| `History.CommandHistory.SetRecording` | plugins2/core/command.rb:259 | `recording =` sets the flag and changes nothing else |
| `History.Run` | plugins2/core/command.rb:340-345 | after a wrapped call returns, recording is on, whatever it was on entry |
| `History.Result` | plugins2/core/command.rb:340-345 | a wrapped method returns `true`, the value of its last statement `recording = true`, whatever its own body came to; any other method returns its body's value |
| `History.Invoke` | plugins2/core/command.rb:340-345 | running a call on the history object adds the entries `Run` gives, leaves the flag `Run` gives, and returns what `Result` gives |
| `History.InvokeAll` | plugins2/core/command.rb:343 | running a body's calls in order adds the entries `RunAll` gives and leaves the flag `RunAll` gives |
| `History.RecordsOwnCommandFirst` | plugins2/core/command.rb:341 | a wrapped call entered while recording records its own command first |
| `History.FlagAfterRun` | plugins2/core/command.rb:342-344 | after any call, recording is on exactly when it was on before or some wrapped method ran within it |
| `History.QuietWhileOff` | plugins2/core/command.rb:265-269 | calls that run no wrapped method, entered while recording is off, add nothing and leave it off |
| `History.WrappedCallWhileOff` | plugins2/core/command.rb:340-345 | a wrapped call entered while recording is off, whose body runs no wrapped method, adds no entry yet leaves recording on |
| `History.SecondNestedCallRecorded` | plugins2/core/command.rb:342-344 | of two wrapped calls made in turn by a wrapped command entered while recording, the second is recorded: the history gains the outer command and the second inner one |
| `History.RunRestoring` | plugins2/core/command.rb:340-345 | the corrected wrapper leaves the flag as it was on entry |
| `History.RestoringSilentWhileOff` | plugins2/core/command.rb:340-345 | with the flag restored, nothing run while recording is off is recorded |
| `History.RestoringRecordsOnlyOutermost` | plugins2/core/command.rb:340-345 | with the flag restored, a wrapped command entered while recording adds exactly its own entry, however its body nests calls |
| `History.InvokeRestoring` | plugins2/core/command.rb:340-345 | the corrected wrapper on the history object adds the entries `RunRestoring` gives, leaves the flag unchanged, and returns the wrapped method's own value |
| `Builder.Annotated` | plugins2/core/command.rb:353-393 | each annotation method stores its value under its own key (`input s` stores the one-element list) and leaves every other key unchanged |
| `Builder.LaterAnnotationWins` | plugins2/core/command.rb:353-357 | of two annotations under one key, the later one remains |
| `Builder.AnnotationsCommute` | plugins2/core/command.rb:353-357 | annotations under different keys can be made in either order |
| `Builder.InputIsOneInput` | plugins2/core/command.rb:383-389 | `input s` stores the same as `inputs s` |
| `Builder.Collapse` | plugins2/core/command.rb:321 | collapsing double slashes never lengthens a name |
| `Builder.CollapseKeepsPlainName` | plugins2/core/command.rb:321 | a name without a double slash is left as it is |
| `Builder.CollapseIsSinglePass` | plugins2/core/command.rb:321 | the collapse is one non-overlapping pass: a run of n slashes becomes a run of (n + 1) / 2 |
| `Builder.UnscopedName` | plugins2/core/command.rb:291-321 | with the default empty scope, and a class and method name holding no slash, a command is named class, one slash, method |
| `Builder.ScopedName` | plugins2/core/command.rb:291-321 | with a non-empty scope, and class, scope and method names holding no slash, the command is named class, scope and method joined by single slashes |
| `Builder.StoredKeyIsLastName` | plugins2/core/command.rb:327-328 | the key name kept on the command is the text after the last slash once trailing slashes are dropped, and none when nothing remains |
| `Builder.StoredKeyShape` | plugins2/core/command.rb:327-328 | a kept key name is non-empty and holds no slash; none is kept exactly when the key is all slashes |
| `Builder.BuildCommand` | plugins2/core/command.rb:320-328 | the built command takes its name from the scope and method, copies scope, sensitivity, inputs and output from the annotations, keeps the last key segment, and sends the method name |
| `Builder.BuiltCommandReadsNoInput` | plugins2/core/command.rb:320-326 | a registrar-built command resolves to no input on any tab |
| `Builder.Declared` | plugins2/core/command.rb:317-351 | a declaration outside a block or while aliasing changes nothing; inside a block it clears the annotations and the aliasing flag |
| `Builder.DeclaredPublishes` | plugins2/core/command.rb:327-345 | a declaration publishes the built command under its name, overwriting that entry, adding no other name and keeping every other entry; it wraps the method with that same command, adding no other wrapper and keeping the others; and it logs the full key and the `menubar/` item exactly when they were annotated |
| `Builder.DeclaredCommandForwardsTrue` | plugins2/core/command.rb:324-344 | a declared method's command sends the method name, reaching the wrapper, so it forwards `true` and never a string the method came to |
| `Builder.DeclaredCommandForwardsMethodValue` | plugins2/core/command.rb:324-344 | with the wrapper returning the wrapped method's value, a declared method's command forwards the string the method came to, and nothing for nil or `false` |
| `Builder.Steps` | plugins2/core/command.rb:290-297 | a block's steps leave the registrar defining and not aliasing, in the same scope |
| `Builder.StepsLeavePending` | plugins2/core/command.rb:349 | the pending annotations after a block's steps are exactly those noted since the last declaration |
| `Builder.StepsPublish` | plugins2/core/command.rb:331-345 | every method declared in a block is published and wrapped, and nothing published or wrapped before is removed |
| `Builder.Registrar.constructor` | plugins2/core/command.rb:284-288 | an enabled class has nothing defined, nothing pending and nothing published |
| `Builder.Registrar.StartDefining` | plugins2/core/command.rb:299-303 | `start_defining_commands` clears the annotations and the aliasing flag and sets defining |
| `Builder.Registrar.StopDefining` | plugins2/core/command.rb:305-309 | `stop_defining_commands` clears the annotations, the aliasing flag and defining |
| `Builder.Registrar.CheckDefining` | plugins2/core/command.rb:311-315 | the check fails with the misuse message exactly when not defining |
| `Builder.Registrar.Annotate` | plugins2/core/command.rb:353-357 | an annotation outside a block fails with the misuse message and changes nothing; inside one it stores its value |
| `Builder.Registrar.Declare` | plugins2/core/command.rb:317-351 | `singleton_method_added` on the registrar object, re-entrant calls included, leaves the state `Declared` gives |
| `Builder.Registrar.UserCommands` | plugins2/core/command.rb:290-297 | `UserCommands(scope)` sets the scope to class, slash and scope, runs the block's steps as `Steps` does, and ends with nothing pending and defining off |

## Left out

- Plugin start and stop, and the FreeBASE transitions (`command.rb:9-17`), are plugin lifecycle. The history's `Clear` is what they call.
- `Command.execute(name)` and its error report (`command.rb:33-51`): the lookup goes through the bus, and the report is logging.
- The bus is not modelled; publishing is a map update (`command.rb:35`, `331`). `Keymap.register_key` and `MenuBuilder.item` are logs of their arguments (`command.rb:329`, `333`).
- The `INPUTS`, `OUTPUTS` and `ACTIVATIONS` display lists (`command.rb:19-31`) feed no logic.
- Logging with `puts` throughout is output only.
- ShellCommand's file write, `chmod` and `Open3.popen3` (`command.rb:203-217`) are operating-system I/O. Standard output is a parameter of `Commands.ExecuteShell`, and standard error is only logged.
- `set_environment_variables` (`command.rb:221-246`) writes the process environment and calls `Redcar.image` and `File`.
- The new tab of `create_new_document` and `show_as_html` (`command.rb:129-133`, `152-155`) is a UI object. The model states only that the current tab is left unchanged.
- `insert_as_snippet` and `show_as_tool_tip` (`command.rb:118-121`) call into widgets. The model treats them as leaving the text unchanged.
- Word bounds, scope text and scope span (`command.rb:88-90`, `96-97`, `145-147`) come from the widget and the grammar engine. They enter the model as a `Commands.Context`.
- The `:word` branch of replace_input (`command.rb:142-143`) uses `@s` and `@e`, which nothing assigns. The model leaves the tab unchanged there and does not model the error Ruby would raise.
- Commands.CharacterInput: In Ruby 1.8, `text[offset]` is a character code, not a string. The model takes the one-character string that later Ruby returns.
- The wrapper's exceptional exit (`command.rb:340-345`) is not modelled. If the body raises, recording stays off. The model covers normal returns only.
- Errors raised inside an inline block are an outcome (`Raised`) that forwards nothing. The rescue's logging is not modelled.
- Commands.Forwarded: block values are modelled as strings, nil, `false` and `true`. Other Ruby values (numbers, arrays) are not modelled. `true` is what every registrar-built command's block comes to, because of the wrapper's last statement.
- Commands.ExecuteInline: the block's edits to the tab are given as the buffer it leaves (`after`), not computed. What the block records in the history is modelled separately, by `History.Invoke`.
- Commands.ExecuteInline: a forwarded value that is not a string, such as `true`, is handed to `direct_output`, and from there to the tab's widget methods. What the widget does with it, or the error it raises, is not modelled; the model leaves the tab as the block left it.
- Strings are sequences of characters throughout. Ruby 1.8 counts bytes in `output_contents.length` (`command.rb:162`) and slices bytes in `text[s..e]` (`command.rb:91`); multi-byte text is not modelled that way.
- `Proc#arity` gives the closure kinds: a body is a call of the declared method, a closure with its arity, or a script.
- `alias_method`, `define_method` and `metaclass` are Ruby metaprogramming. They appear only as the two re-entrant `Declare` calls and the `wrapped` map.
- `tm_uuid` and `bundle_uuid` are read only by the environment staging.
- `icon` and `primitive` annotations are stored but never copied onto the command, as in the source.
- A `UserCommands` block nested inside another is not modelled. The steps of a block are annotation calls and declarations only.

## Findings

| source | as written | input that shows it | evidently intended | confidence | as-written member | corrected member |
|---|---|---|---|---|---|---|
| plugins2/core/command.rb:340-345 | the wrapper sets `recording = true` after the body, whatever the flag was on entry | a wrapped command whose body calls two wrapped commands in turn, entered while recording: the first inner call turns recording on again, so the second inner call is recorded | the flag is put back to its value on entry, so that only the outermost command of a nested chain is recorded | not executed | `History.SecondNestedCallRecorded` | `History.RestoringRecordsOnlyOutermost` |
| plugins2/core/command.rb:340-345 | the wrapper's last statement is `CommandHistory.recording = true`, so a wrapped method returns `true`; the command's block `self.send(method_name)` (`command.rb:324`) reaches the wrapper | `output :insert_as_text` followed by a method returning `"hi"`: the command hands `true` to `direct_output`, and `"hi"` is never inserted | the wrapper returns the value of `self.send(newname)`, so the command forwards what the method returned | not executed | `Builder.DeclaredCommandForwardsTrue` | `Builder.DeclaredCommandForwardsMethodValue` |
