# i3-autoname-ws in Dafny

i3-autoname-ws names i3 workspaces after the windows they hold. The
repository has two versions of the daemon, and this project models the pure
core of each one. IPC calls are replaced by values: the workspace list and
the node tree come in as data. The Go functions return the command text
they would send. The Python functions return the list of rename commands
they would send, one `RenameCommand` per `i3_conn.command` call; the text
of each call is `CommandText` of it.

- `text.dfy`: module `Wrappers` holds `Option`. Module `Text` holds what both
  versions share: digit classes, decimal formatting (Go's `%d`, Python's
  `str`), joining, and ASCII lower-casing.
- `autoname_go.dfy`: module `AutonameGo` models the Go daemon (`main.go`):
  - `getWinIcon`, a case-sensitive switch (`WinIcon`);
  - `getWsName` and its recursive leaf collector (`GetWsName`,
    `AppendLeafIcons`, `AppendChildIcons`), specified by `WsName`;
  - `renameAllWs`: the ID→number map (`BuildWsNums`), and the depth-first
    walk that writes into a `strings.Builder` (`Walk`, class
    `StringBuilder`), specified by `Managed`, `Renames` and `Render`;
  - `resetWsName` (`ResetWsName`, specified by `ResetPlan`);
  - the event filter of `main` (`Triggers`, `EventLoop`).
- `autoname_py.dfy`: module `AutonamePy` models the Python daemon
  (`__main__.py`):
  - the regex parser and the name builder (`ParseWorkspaceName`,
    `ConstructWorkspaceName`);
  - the `re.findall` extraction of quoted xprop values (`FindAll`);
  - `icon_for_window` (`IconForWindow`, specified by `FirstIcon`);
  - the renumbering and rename loop of `rename_workspaces`
    (`RenameWorkspaces`, specified by `NumberAt`, `WantedNames` and
    `RenameRun`);
  - `on_exit` (`OnExit`, specified by `ExitRun`).

Each loop in the source is a method. The method is proved equal to a
recursive specification function, and lemmas prove what the source promises
about that function.

The model follows the code where it differs from a natural reading:

- `getWinIcon` compares the class exactly, so "firefox" gets the fallback
  glyph and only "Firefox" gets the Firefox glyph.
- `resetWsName` does not filter named workspaces, so their target is "-1".
- An unknown event type falls through the filter and does trigger a rename.
- `on_exit` compares names with `is not`, which is object identity. In
  CPython, `str()` of a `str` returns the same object. A regex group that
  spans the whole subject is also the subject object itself. So the test is
  false only for a name made entirely of digits, whose exit name equals it
  anyway. Every other workspace gets a rename, even one whose name is
  unchanged, such as "3:web" (`ExitRenamesEqualName`).
- In Python, the icons field is always non-empty: it is the glyphs joined by
  spaces plus a trailing space. So a workspace without windows and without a
  short name is named "<num>:" followed by two spaces.

## Model

| member | source | states |
|---|---|---|
| AutonameGo.WinIcon | main.go:109-155 | every window gets a glyph, one character long; no class is an error |
| AutonameGo.WinIconBrowsers | main.go:127-134 | "Google-chrome" and "Chromium-browser" give the WhatsApp glyph for the WhatsApp instance and the Chrome glyph for any other |
| AutonameGo.WinIconByTable | main.go:110-150 | every other class the switch names gets its glyph from the table |
| AutonameGo.WinIconFallback | main.go:151-153 | the glyph is the fallback \uf128 exactly when the class is named nowhere in the switch |
| AutonameGo.WinIconCaseSensitive | main.go:125-126 | "Firefox" gets the Firefox glyph while "firefox" gets the fallback: matching is case-sensitive |
| AutonameGo.AppendLeafIcons | main.go:84-95 | the closure appends the glyphs of the leaves below the node's tiled children, in child order, to what it was given |
| AutonameGo.AppendChildIcons | main.go:86-93 | a child without tiled children adds its own glyph; any other child adds the glyphs of its leaves |
| AutonameGo.GetWsName | main.go:80-107 | the result is the label `WsName`: the tiled leaves first, then those of each floating node in order |
| AutonameGo.WsNameWithoutLeaves | main.go:102-103 | with no leaf the label is exactly the `%d` text of the number; for a number of at least 0 it is all digits, reads back as the number, and starts with '0' only for 0 |
| AutonameGo.WsNameWithLeaves | main.go:97-106 | with leaves the label is "<num>: " followed by exactly one glyph per leaf, the i-th being the i-th leaf's glyph |
| AutonameGo.EmptyFloatingAddsNothing | main.go:98-100 | a floating node without children adds no glyph |
| AutonameGo.FlatNodeLeaves | main.go:85-91 | when every tiled child has no children, the leaves are exactly those children, in order |
| AutonameGo.NumMapKeys | main.go:20-28 | the map holds exactly the IDs of workspaces with a number other than -1, each with such a workspace's number, never -1 |
| AutonameGo.BuildWsNums | main.go:20-28 | the loop builds that map, skipping named workspaces |
| AutonameGo.Managed | main.go:38-53 | every node the walk renames has an entry in the map |
| AutonameGo.ManagedReached | main.go:38-53 | a node is renamed exactly when it has an entry in the map and is reached from the root through tiled children without passing a node that has one: nothing below a renamed node is visited |
| AutonameGo.ManagedUpToReached | main.go:49-51 | the nodes renamed below the first k children are exactly the numbered nodes reached from one of them |
| AutonameGo.Walk | main.go:37-52 | the closure appends to the builder exactly the text of the walk from that node, and changes nothing else |
| AutonameGo.StatementTextInjective | main.go:43 | when the old name has no double quote, the statement text determines both names |
| AutonameGo.WalkTextIsPlan | main.go:38-53 | the text the closure writes is the rendering, in walk order, of one statement per managed node |
| AutonameGo.RenameAllWs | main.go:14-59 | the command is the concatenation of the statements of the rename plan |
| AutonameGo.RenamePlanStatements | main.go:40-49 | one statement per managed node, renaming its name to its label under the number of a numbered workspace with its ID |
| AutonameGo.TwoNumberedOneNamed | main.go:14-59 | two numbered workspaces and one named "scratch" under one output give exactly two statements, for "1" and "2", none for "scratch" |
| AutonameGo.NamedWorkspaceNeverRenamed | main.go:21-24 | when IDs are unique, no node of a named workspace (num -1) is renamed |
| AutonameGo.ManagedIgnoresFloating | main.go:52-54 | the walk descends only through tiled children: removing every floating list leaves the renamed nodes and their order unchanged |
| AutonameGo.ResetPlan | main.go:69-72 | one statement per workspace, in list order, renaming it from its own name |
| AutonameGo.ResetWsName | main.go:61-78 | the command is the concatenation of the reset statements |
| AutonameGo.ResetTargets | main.go:70 | each target is exactly the `%d` text of the workspace's number; for a number of at least 0 it is all digits, reads back as the number, and starts with '0' only for 0; a named workspace's target is "-1" |
| AutonameGo.Triggers | main.go:183-198 | window events trigger exactly for new, close, move and floating; workspace events exactly for move; any other event type always triggers |
| AutonameGo.TriggeredUpTo | main.go:182-199 | lists, in increasing order, exactly the triggering events among the first k |
| AutonameGo.FirstFatal | main.go:200-202 | the first event whose triggered rename fails; every event before it either did not trigger or succeeded |
| AutonameGo.EventLoop | main.go:182-203 | renames after exactly the triggering events, in order, up to and including the first failing one; fatal exactly when one fails |
| AutonamePy.ConstructWorkspaceName | __main__.py:103-118 | the name starts with the number, and it is the bare number exactly when both the short name and the icons are falsy |
| AutonamePy.ParseWorkspaceName | __main__.py:92-100 | the match succeeds exactly when the name starts with a digit |
| AutonamePy.RunSpec | __main__.py:99 | each greedy group is the longest prefix of its character class |
| AutonamePy.ParseWellFormed | __main__.py:99-100 | a successful parse gives a digit prefix of the name, an optional non-empty word and optional non-empty text without newlines |
| AutonamePy.ParseConstruct | __main__.py:92-118 | parsing the built name of any well-formed triple gives the triple back |
| AutonamePy.ColonOptional | __main__.py:99 | "3web" and "3:web" parse alike when the word starts with a non-digit |
| AutonamePy.NextQuote | __main__.py:132 | the index of the first quote, with no quote before it |
| AutonamePy.FindAllQuoteFree | __main__.py:132 | every extracted value is non-empty and contains no quote |
| AutonamePy.FindAllSkips | __main__.py:132 | text without quotes yields nothing and does not disturb what follows |
| AutonamePy.TakesQuoted | __main__.py:132 | a quoted non-empty value without quotes is extracted whole, and the scan resumes after it |
| AutonamePy.XpropRoundTrip | __main__.py:132 | extraction from an xprop line gives back exactly the printed values, in order |
| AutonamePy.FirstIconSpec | __main__.py:24-31 | the icon of the first class whose lower-cased form is a key, or the default when no class has one |
| AutonamePy.IconForWindow | __main__.py:18-31 | the early-return loop gives that icon; a failed xprop gives the default |
| AutonamePy.NumberAt | __main__.py:49-55 | the number of the i-th workspace lies between i + 1 and 2i + 1 |
| AutonamePy.NumberCountsGaps | __main__.py:47-55 | each number is its position plus one, plus one gap per output change so far |
| AutonamePy.NumbersIncrease | __main__.py:36-55 | numbers strictly increase along the list |
| AutonamePy.TwoMonitorExample | __main__.py:36-38 | three workspaces on one output and two on the next are numbered 1, 2, 3 and 5, 6 |
| AutonamePy.WorkspaceIcons | __main__.py:45 | the field is the leaves' icons joined by single spaces, plus a trailing space |
| AutonamePy.FieldOkFromIcons | __main__.py:45 | with newline-free icons the field is non-empty and newline-free, so it reads back whole as the icons group |
| AutonamePy.CommandTextNames | __main__.py:64 | the command text, read back with the quoted-value extraction, gives the old and the new name, in order, when neither is empty or holds a double quote |
| AutonamePy.RenameOne | __main__.py:44-61 | gives the parse of the workspace's name and, when it parsed, the name wanted for it |
| AutonamePy.RenameWorkspaces | __main__.py:34-64 | the commands and completion are those of the run over the zipped pairs, with the wanted names at the computed numbers |
| AutonamePy.RenameRunCompletes | __main__.py:43-44 | the loop completes exactly when every name parses |
| AutonamePy.RenameRunSound | __main__.py:63-64 | at most one command per workspace; each renames a workspace whose name parsed and differs from its wanted name |
| AutonamePy.RenameRunSendsEveryChange | __main__.py:63-64 | when every name parses, each workspace whose name differs from its wanted name gets its command |
| AutonamePy.RenameRunQuiet | __main__.py:63-64 | a run where every name parses and already is the wanted one sends nothing |
| AutonamePy.NewNameReparses | __main__.py:57-61 | the wanted name parses back to the chosen number, the kept short name and the icons field |
| AutonamePy.RenameIsStable | __main__.py:57-64 | a workspace renamed to its wanted name is wanted under that same name again |
| AutonamePy.SecondRunQuiet | __main__.py:34-64 | a run that follows a complete run, with unchanged outputs, numbers and leaves, sends no command |
| AutonamePy.OnExit | __main__.py:67-83 | the commands and completion are those of the exit run over the parsed names |
| AutonamePy.ExitRunSpec | __main__.py:71-80 | on_exit completes exactly when every name parses; each command renames a workspace to its exit name; every workspace not identical to its exit name gets one |
| AutonamePy.ExitNameStrips | __main__.py:72-77 | the exit name parses back to the same number and short name with no icons |
| AutonamePy.ExitSkipsOnlyDigitNames | __main__.py:79 | the identity test skips a workspace exactly when its name is all digits, and then the exit name equals the name |
| AutonamePy.ExitRenamesEqualName | __main__.py:79-80 | a name with a short name and no icons is renamed to an equal name |
| Text.IntToString | main.go:103 | the decimal text is non-empty, has a sign exactly for negatives, its digits read back as the magnitude, and it has no leading zero except the text "0" |
| Text.ParseNatToString | __main__.py:107 | the decimal text of a natural number reads back as the number |
| Text.ConcatOfSingletons | main.go:106 | joining one-character glyphs with no separator gives one character per glyph, in order |
| Text.JoinLacks | __main__.py:45 | joining strings that lack a character, with a separator that lacks it, gives a string that lacks it |

## Left out

- IPC is not modelled. Workspaces and trees are inputs, and commands are outputs. This covers `i3.GetWorkspaces`, `i3.GetTree`, `i3.RunCommand`, `i3.Subscribe`, `i3.AtLeast`, and `get_workspaces`, `get_tree`, `command`, `main`, `main_quit` on the Python connection. The errors of these calls are not modelled either.
- The model does not check whether i3 accepts the command text. Names are pasted in without escaping.
- Signal handling, the goroutine, `os.Exit`, `sys.exit` and `log.Fatal` are process plumbing. `EventLoop` models `log.Fatal` only as the end of the loop.
- The initial `renameAllWs` in `main`, whose error is only logged, is not modelled. Neither is Python's `main` with its `event_handler` registration.
- Logging and printed diagnostics are left out.
- The `xprop` subprocess is not modelled. Each leaf carries the decoded xprop output, or None when the call fails.
- config.py is data whose glyphs come from the external nerdfonts package. `ICONS` is a map parameter, and `DEFAULT_ICON` is "*".
- `focused_workspace` is not called by the rest of the code and is not modelled.
- Python's Unicode `\w` becomes ASCII letters, digits and underscore. `str.casefold` becomes ASCII lower-casing.
- Python's `\d` in a `str` pattern matches every Unicode decimal digit, while the model's `IsDigit` is ASCII `0`-`9` only. So a name such as "٣:web" (Arabic-Indic three) parses in Python but not in the model, which treats it as a failed match.
- Integers are unbounded. Go's `int64` and the i3 numbers never overflow in the model.
- `RenameWorkspaces` takes the outputs of `get_workspaces` and the workspaces of `get_tree` as two lists paired by position, as `zip` pairs them. The model does not check that the two lists describe the same workspaces.
- AutonamePy.WantedNames: a workspace whose name does not parse has no wanted name, because the loop raises there. Its own name fills the slot and is never used.
- AutonameGo.NamedWorkspaceNeverRenamed: assumes workspace IDs are unique in the list. The source takes this for granted from i3.
