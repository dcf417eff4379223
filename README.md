# Story-traversal engine of the choose-your-own-adventure tool server

This project models the in-memory game engine of `backend/mcp_server.py`.
The server exposes tools to an agent. One tool loads a generated story: a root
node plus a table of all nodes keyed by id. The engine keeps a single
process-wide `GameState` that holds the loaded story and a cursor on the
current node. `make_choice` resolves a free-text utterance against the
current node's options. It lower-cases both sides, then tests substring
containment in either direction. The first option in stored order that
matches wins. The cursor then moves to that option's target.
`get_current_status` and `list_available_options` are read-only views of the
state.

Layout:

- `options.dfy`: `Option`, the type of the dataclass's `Optional[...]` fields.
- `text.dfy` (`Text`): ASCII `Lower` and substring `Contains`, with `Contains`
  proved equal to "occurs at some index".
- `stories.dfy` (`Stories`): `Choice`, `Node` and `Story` values. Node ids are
  `int` and the node table is a `map<int, Node>`.
- `matching.dfy` (`Matching`): the match predicate and `FirstMatch`, with its
  first-match characterisation.
- `navigator.dfy` (`Navigator`): the session as a value, one result datatype
  per tool (each refusal is its own variant), one pure step function per tool
  (`ChoiceStep`, `LoadStep`, `Status`, `ListOptions`), `Play` for a sequence of choices, and the lemmas about them.
- `game_state.dfy` (`McpServer`): the class `GameState` with the five dataclass
  fields. Each tool is a method: `GetStory` and `MakeChoice` update the fields
  in place, the two read-only tools only read them, and each method is proved to do exactly what its step function says. `MakeChoice`
  frames only the cursor field, and `GetStory` frames only the three fields
  that `get_story` writes. The two read-only tools have no `modifies` clause.

Python truthiness is modelled explicitly. "No active story" means no story is
loaded, or the cursor is unset, or the cursor is 0. So a story whose root id
is 0 loads but is never active (`ZeroRootIsInactive`).

The model keeps these behaviours of the code, although a stricter design would differ:

- Loading does not check that the root id is a key of the node table. Such a
  story loads. Afterwards `make_choice` fails with `CurrentNodeNotFound`, and
  the two read-only views return their caught-error variants `StatusError`
  and `OptionsError`.
- With no active story, `get_current_status` succeeds and reports "no active
  story". Of the two read-only views, only `list_available_options` fails.
- The `options` that `make_choice`, `get_story` and `get_current_status`
  report are the raw option records (text and target id), not texts only.
- `get_story` reports the payload's own `id`, while `current_story_id` is set
  to the resolved id: the requested id when it is truthy, else the current one.

The HTTP fetch inside `get_story` becomes a parameter. `response` is the
story the service returned for the resolved id, or `None` for a non-200 reply
or a failed request.

## Model

| member | source | states |
|---|---|---|
| `McpServer.GameState.constructor` | backend/mcp_server.py:17-24 | a fresh game state has every field unset |
| `McpServer.GameState.GetStory` | backend/mcp_server.py:138-174 | resolves the story id; when that fails, or the fetch fails, nothing changes; otherwise it sets the story id, the story and the cursor (to the root's id), and only those fields; the result is exactly `LoadStep` |
| `McpServer.GameState.MakeChoice` | backend/mcp_server.py:183-262 | the option scan is a loop whose invariant is "no earlier option matched"; only the cursor field may change; result and new state are exactly `ChoiceStep` |
| `McpServer.GameState.GetCurrentStatus` | backend/mcp_server.py:271-303 | changes nothing; returns `Status` of the current state |
| `McpServer.GameState.ListAvailableOptions` | backend/mcp_server.py:306-341 | changes nothing; returns `ListOptions` of the current state |
| `McpServer.ReadsAreRepeatable` | backend/mcp_server.py:270-341 | two status calls in a row give identical results, and so do two listing calls |
| `Navigator.ResolveStoryId` | backend/mcp_server.py:138-145 | no id is resolved exactly when neither the requested nor the current id is truthy; a resolved id is truthy and is one of the two; a truthy requested id always wins |
| `Text.Lower` | backend/mcp_server.py:223-226 | the lower-cased string has the same length, contains no ASCII capital, turns each ASCII capital into its own lower-case letter (code point + 32), and keeps every other character in place |
| `Text.ContainsLower` | backend/mcp_server.py:226 | if `p` is a substring of `s`, then `Lower(p)` is a substring of `Lower(s)`: the case-insensitive test accepts every plain containment |
| `Text.LowerIdempotent` | backend/mcp_server.py:223-226 | lower-casing an already lower-cased string changes nothing |
| `Text.Contains` | backend/mcp_server.py:226 | `Contains(s, p)` holds exactly when `p` occurs in `s` at some index |
| `Text.ContainsSelf` | backend/mcp_server.py:226 | every string contains itself |
| `Text.ContainsEmpty` | backend/mcp_server.py:226 | every string contains the empty string |
| `Matching.FirstMatch` | backend/mcp_server.py:222-228 | returns the least index whose option matches, with no earlier option matching; returns none exactly when no option matches |
| `Matching.ExactTextResolves` | backend/mcp_server.py:222-228 | an utterance equal to option i's text always resolves, to an index no greater than i |
| `Matching.EmptyUtteranceSelectsFirst` | backend/mcp_server.py:222-228 | the empty utterance selects the first option |
| `Matching.FirstMatchIgnoresCase` | backend/mcp_server.py:223-226 | two utterances with the same lower-cased form select the same option |
| `Matching.CaseVariantsSelectAlike` | backend/mcp_server.py:223-226 | two utterances of the same length that differ only where one has an ASCII capital and the other its lower-case letter select the same option |
| `Matching.MatchExamples` | backend/mcp_server.py:226 | "NORTH" matches "go north"; "go north now" matches "go north"; "south" does not match "go north" |
| `Navigator.NoStoryRefused` | backend/mcp_server.py:193-197 | with no story loaded, or with cursor unset or 0, the result is `NoActiveStory` and the session is unchanged |
| `Navigator.MissingNodeRefused` | backend/mcp_server.py:200-206 | with an active story whose cursor names no node of the table, the result is `CurrentNodeNotFound` and the session is unchanged |
| `Navigator.EndedRefused` | backend/mcp_server.py:208-212 | at an ending the result is `StoryEnded`, not the no-story error, and the session is unchanged |
| `Navigator.NoOptionsRefused` | backend/mcp_server.py:214-219 | at a non-ending node with no options the result is `NoOptions` and the session is unchanged |
| `Navigator.NoMatchListsTexts` | backend/mcp_server.py:230-235 | when no option matches, the error carries exactly the node's option texts in stored order, and the session is unchanged |
| `Navigator.DanglingRefused` | backend/mcp_server.py:238-245 | when the selected option's target is not in the table the result is `NextNodeNotFound` and the session is unchanged |
| `Navigator.RefusalChangesNothing` | backend/mcp_server.py:193-245 | every outcome other than a move leaves the whole session as it was |
| `Navigator.MoveCharacterized` | backend/mcp_server.py:237-262 | a move happens exactly when the scan selects an option whose target is in the table; then only the cursor changes, to that target; the result carries the selected text and the target's content, ending flag and options; the winning flag is present exactly on endings |
| `Navigator.CursorStaysValid` | backend/mcp_server.py:238-248 | a cursor that names a node of the table still does after any choice; a move always lands on a node of the table |
| `Navigator.ExactChoiceMoves` | backend/mcp_server.py:222-262 | when all of a node's targets exist, an utterance equal to option i's text moves the cursor to the target of some matching option k with k no greater than i |
| `Navigator.PlayKeepsCursorValid` | backend/mcp_server.py:238-248 | over any sequence of choices, a cursor that names a node of the table keeps doing so |
| `Navigator.PlayMovesOnlyCursor` | backend/mcp_server.py:247-248 | over any sequence of choices only the cursor changes; the story, its id and the bookkeeping stay as loaded |
| `Navigator.EndingIsFinal` | backend/mcp_server.py:208-212 | once the cursor is at an ending, no sequence of choices changes the session |
| `Navigator.LoadReplacesCursor` | backend/mcp_server.py:153-167 | a load with a usable id and a fetched payload replaces the story id, the story and the cursor (set to the root id) unconditionally, keeps the job and session ids, and reports the payload's id, title, creation time and root |
| `Navigator.LoadFailureChangesNothing` | backend/mcp_server.py:138-174 | a load that fails leaves the session unchanged; it reports `NoStoryId` when no truthy id exists and `FetchFailed` otherwise |
| `Navigator.LoadPositionsAtRoot` | backend/mcp_server.py:153-156 | when the root is in the table and its id is not 0, the loaded session is active, its cursor is valid, and the current node is the root's table entry |
| `Navigator.ZeroRootIsInactive` | backend/mcp_server.py:193-197 | a story whose root id is 0 loads, yet the status reports no active story and `make_choice` refuses with `NoActiveStory` |
| `Navigator.InactiveProjections` | backend/mcp_server.py:278-317 | with no active story, the status succeeds with "no active story" and the listing fails |
| `Navigator.ListingNumbersOptions` | backend/mcp_server.py:329-335 | at a non-ending node the listing has one entry per option, numbered i + 1 in stored order, with the text copied verbatim; these are the same texts that `ChoiceNotFound` reports |
| `Navigator.EndingProjections` | backend/mcp_server.py:286-327 | at an ending the listing is empty and the status reports an ending |
| `Navigator.StatusAfterMove` | backend/mcp_server.py:248-297 | after a move to a truthy id, the status reports the content, ending flag and options that the move reported |
| `Navigator.ThreeNodeRun` | backend/mcp_server.py:153-262 | loading a three-node story, choosing "door" and then "step through" reaches the winning ending, where a further choice is refused as `StoryEnded` |

## Left out

- `create_story` (lines 32-72) and `check_job_status` (lines 74-125): HTTP calls to the generation service. So the model never writes `session_id` or `last_job_id`, and it does not model the write of `current_story_id` at line 103.
- The HTTP request in `get_story` and its status-code branching: the reply is the `response` parameter.
- FastMCP construction (line 30), the `@mcp.tool()` registrations (lines 32, 74, 127, 182, 270 and 305) and `main` / `mcp.run()` (lines 344-350): library glue.
- The catch-all exception handlers, except the lookup faults of the two read-only tools, which are modelled as `StatusError` and `OptionsError`. Payloads are typed, so a missing field cannot raise. So the model has none of the source's half-done updates. Line 156 can raise after lines 154-155 have run. Lines 162-166 can raise after the whole load update of lines 154-156, and the tool then reports an error. Line 253 can raise after line 248 has moved the cursor, and `make_choice` then reports "Error making choice" with the cursor moved. `Navigator.RefusalChangesNothing` holds only because payloads are typed.
- The error and success message texts, and the formatting of the option list in the error string: results are tagged variants. Only `ChoiceNotFound` carries the list of texts.
- Unicode case folding: `Lower` lower-cases ASCII only.
- JSON and dictionary details: string keys in `all_nodes`, fields read with `.get` defaults (a missing flag reads as false, missing options as empty), and falsy empty dictionaries. Nodes, options and payloads are always present records here.
- Serialising concurrent tool calls: the engine is single-threaded.
