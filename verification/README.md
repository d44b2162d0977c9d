# Chat history trimming and reply streaming, in Dafny

This project models the core of a small terminal chat client for a local language-model endpoint (`main.py`). The core has three pure parts, and the model covers each:

- **Token estimator** (`Tokens`): a text's cost is a quarter of its length, rounded down, and never less than one.
- **History trimming** (`History`): `trim_history` keeps a leading `system` turn. It then scans the other turns from newest to oldest, adding up estimated costs against a budget. The newest turn is always kept. The scan stops at the first turn that does not fit, and the kept turns come back in their original order.
- **Stream fold** (`Stream`): the line loop of `chat_once` reads an already-received reply stream. Blank and unparseable lines are skipped. Each record yields a text fragment: the `message` object's `content` wins over `response`. Non-empty fragments are printed and accumulated. The first record marked `done` ends the loop.

The `Chat` module models the history bookkeeping around these parts in `chat_once`, as the code does it. The caller's list gains only the user turn, because `append` mutates it in place. A trimmed copy of that list is sent to the endpoint. The reply is appended to the copy, and the copy is what gets saved. So replies from earlier rounds are never carried forward in the caller's list. The fresh or reset state is one system turn holding the fixed instruction text.

Printing is modelled as appending to an output sequence (`printed`, `emitted`). The network response is taken as a sequence of lines that have already been classified as `Blank`, `Malformed` or `Record(message, response, done)`.

Each operation appears in two forms. One is a recursive function that the lemmas are stated about: `Trim`/`ScanStart` and `Consume`. The other is a method with a loop that follows the source's statements: `TrimHistory`/`CollectNewest` and `ReadStream`. Each method is proved equal to its function.

Behaviour of `main.py` worth noting:

- The estimate is a step function of length. It is constant over each run of four lengths and never decreases.
- The budget check counts the system turn's cost as the starting total. With no system turn, the starting total is the cost of the empty text, which is 1.
- The assistant reply is appended to the trimmed copy, not to the caller's history.

## Model

| member | source | states |
|---|---|---|
| Tokens.ApproxTokenCount | main.py:20-21 | the estimate is at least 1; it is 1 or at most a quarter of the length; the length is below four times one more than the estimate (so it equals max(1, floor(length/4))) |
| Tokens.ApproxTokenCountMonotonic | main.py:20-21 | a longer text never has a smaller estimate |
| Tokens.ApproxTokenCountByLength | main.py:20-21 | texts of equal length have equal estimates |
| Tokens.EmptyTextCostsOne | main.py:34-35 | the empty text costs 1, which is the starting total when there is no system turn |
| History.ScanStart | main.py:37-43 | the backwards scan keeps a contiguous run of newest turns, and the first turn considered is always kept |
| History.ScanWithinBudget | main.py:38-43 | every turn kept after the forced first one kept the running total within the budget |
| History.ScanMaximal | main.py:38-43 | once a turn is kept, the scan stops only at a turn that would push the total over the budget |
| History.ScanSeesOnlyCosts | main.py:38-43 | two histories with equal costs position by position are scanned alike |
| History.Trim | main.py:23-45 | an empty history or a system-only history comes back unchanged for any budget; the leading system turn is kept; the rest is a contiguous run of the newest turns in their original order; the newest turn is always kept |
| History.TrimDrawsFromHistory | main.py:37-45 | every turn in the trimmed history is a turn of the input, unedited |
| History.TrimKeepsNewest | main.py:38-43 | the newest non-system turn is the last turn of the trimmed history, even when its cost alone exceeds the budget |
| History.TrimAfterAppend | main.py:52-53 | trimming right after appending any turn keeps that turn last and keeps the system turn first |
| History.TrimWithinBudget | main.py:34-43 | with two or more turns kept, the base cost (the system turn's cost, or 1) plus the kept turns' costs is at most the budget |
| History.TrimMaximal | main.py:34-43 | when a turn was dropped, adding the next older turn would exceed the budget |
| History.KeptRunsFit | main.py:34-43 | every kept run of two or more newest turns fits the budget together with the base |
| History.LongerRunsDoNotFit | main.py:34-43 | every run of newest turns longer than the kept one breaks the budget |
| History.KeptRunIsLongestThatFits | main.py:34-45 | for runs of two or more newest turns, a run fits the budget with the base exactly when it is no longer than the kept run |
| History.TrimKeepsWhatFits | main.py:37-45 | a history whose turns all fit, or that has at most one turn besides the system turn, is returned unchanged |
| History.TrimIdempotent | main.py:23-45 | trimming twice with the same budget gives the same result as trimming once, even when a non-leading system turn becomes the head |
| History.TrimIgnoresLaterRoles | main.py:26-43 | the roles of turns after the first do not change how many turns are kept, so a non-leading system turn is trimmed like any other |
| History.Reverse | main.py:44 | the reversal has the same length and holds the elements in opposite order |
| History.CollectNewest | main.py:37-43 | the source's loop builds, newest first, exactly the turns the scan keeps |
| History.TrimHistory | main.py:23-45 | the source's split, scan, reverse and concatenate steps compute the same result as `Trim` |
| Stream.FragmentPrecedence | main.py:78-82 | a `message` object's `content` (default "") masks `response` entirely; a `message` that is not an object counts as absent, leaving `response` (default ""); the `done` marker never changes the fragment; blank and unparseable lines have none |
| Stream.SingleRecordReply | main.py:78-86 | a stream of one record replies with exactly that record's fragment, printed only when non-empty |
| Stream.Consume | main.py:69-89 | only non-empty fragments are emitted; the returned text is the concatenation of the emitted fragments; the text is empty exactly when nothing was emitted |
| Stream.ReadCount | main.py:70-89 | the loop reads every line up to and including the first record marked done, and stops early only at such a record |
| Stream.ConsumeReadsUpToFirstDone | main.py:70-89 | the emitted fragments are exactly the non-empty fragments of the lines read, including the first record marked done, in arrival order, and the text is their concatenation |
| Stream.LinesAfterDoneIgnored | main.py:88-89 | any lines after a record marked done change nothing |
| Stream.DoneRecordCounts | main.py:78-89 | the first record marked done still contributes its own fragment, after everything the lines before it contributed |
| Stream.NoiseIgnored | main.py:70-76 | removing every blank and unparseable line leaves the result unchanged, so they never end the stream |
| Stream.ReadStream | main.py:69-89 | the source's loop, with `print` as appending, prints and accumulates exactly what `Consume` describes |
| Stream.MixedStreamExample | main.py:69-89 | noise, then "Hi" from `message`, " there" from `response`, then a done record, then one more record: the fragments are "Hi" and " there" and the text is "Hi there" |
| Stream.FragmentPrecedenceExample | main.py:79-82 | a `message` object without `content` yields "" even when `response` is present; a non-object `message` falls back to `response` |
| Chat.FreshHistoryTrimStable | main.py:8-18 | the fresh single-system-turn history survives trimming under any budget |
| Chat.SystemPromptCost | main.py:8-11 | the fixed instruction text (111 characters) is estimated at 27 tokens |
| Chat.ChatOnce | main.py:51-92 | the caller's list gains exactly the user turn; what is printed is every non-empty fragment of the lines read up to the first done record; the saved history ends with the user turn and then an assistant turn holding the printed fragments concatenated; the system turn is saved first |
| Chat.SavedBeforeReplyIsSent | main.py:51-92 | everything saved before the reply is the caller's system turn followed by the newest turns the default budget of 3000 admits, that is, the caller's list trimmed |
| Chat.SavedTurnsComeFromCaller | main.py:51-92 | every saved turn except the reply is an unedited turn of the caller's list |
| Chat.CallerGainsOnlyUserTurns | main.py:51-53 | after any number of rounds, the caller's history is the starting history followed by the user turns alone |
| Chat.SavedHoldsOnlyLatestReply | main.py:51-92 | starting from a history with no replies, the history saved after any round holds exactly one assistant turn, the latest one, at the end |
| Chat.FirstRoundExample | main.py:51-92 | from a fresh history, sending "2+2?" and receiving "4" saves the system, user and assistant turns |

## Left out

- Reading and writing the history file (`load_history`, `save_history`, `reset_history`) and JSON (de)serialisation are file I/O and are not modelled. `load_history` does not catch parse errors, and `save_history` overwrites the file directly with no atomic rename. Neither behaviour is given a model. The reset state is modelled only as the value `FreshHistory`.
- The HTTP request (`requests.post`), `raise_for_status` and the 600-second timeout are network I/O. The model starts from a reply stream that has already been received, so request failures are not modelled.
- JSON parsing of each stream line is not modelled. Lines are given already classified. Non-object JSON values, and `content`, `response` or `done` values that are not strings or booleans, are not modelled: Python's handling of them depends on dynamic typing. `done` is modelled as its truthiness.
- Roles other than `system`, `user` and `assistant`, and turns without a `content` key (which `trim_history` reads as ""), are not modelled, because loading a history from a file is out of scope.
- The request payload, the model name and the generation options (temperature, top_p, num_ctx) are not modelled. They are constants with no effect on the logic here.
- The terminal loop, the `/reset` and `/exit` commands, `input`, `load_dotenv`, environment variables, the global history-file path, and the final `print()` newline are I/O and configuration plumbing.
- `chat_once` is annotated `-> str` but returns nothing, so the model gives it no return value. `ChatOnce` returns the resulting state instead.
- Python integers are unbounded, so the model has no integer width to model.
