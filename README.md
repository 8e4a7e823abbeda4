# AI threat monitor: consumer and CSS fixer, modelled in Dafny

This project models two pieces of sequential logic from the AI threat prediction
and mitigation desktop tool.

**The monitoring consumer of `ThreatApp` (main_window.py).** Sensors put feature
observations on a shared queue. A consumer loop takes each one off in turn and
classifies it, appending an `[ALERT]` entry to the in-memory log. When the label
is the anomaly label `-1` it calls the mitigator. Mitigation and consumer faults
are turned into log entries instead of ending the loop; a classifier fault is
only printed, and the observation is alerted with a default label. `start` and `stop` set and clear the running
flag, and `_safe_run` turns a sensor crash into one log entry. The two toolbar
actions (TTP extraction and report export) also append to the log.

The model (`monitor.dfy`, module `Monitor`) has these parts:

- a class `ThreatApp` with the queue, the flag, the log and the last extracted
  TTPs as fields;
- ghost traces of what was enqueued, taken and mitigated;
- the pure functions `Handle` (one observation), `Step` (one loop iteration)
  and `Run` (many iterations), which specify the methods `ConsumeStep` and
  `Consume`;
- lemmas over `Run`: append-only log, FIFO order, at most one mitigation per
  observation, one alert per observation, and graceful behaviour when the
  classifier keeps failing.

The classifier's and mitigator's outcomes are inputs. So is anything the sensors
enqueue during an iteration, and any exception from the window, each given as
one `Tick` per iteration.

**The CSS brace fixer `fix_css_selectors` (fix_css.py).** It rewrites the
`apply_styles` method of a Python source file so that the Qt style sheet inside
an f-string has doubled braces. The steps are:

1. Locate the method region.
2. Apply six regular-expression rewrites of selector openings.
3. Double every lone closing-brace line inside a `setStyleSheet(f"""` …
   `        """)` block.
4. Splice the region back into the content.

The model works on the content string; `None` stands for "nothing written".

- `text.dfy` (module `Text`) gives the Python string operations the fixer uses,
  with CPython's meaning: `find`, `in`, `split('\n')`, `'\n'.join`,
  `replace('}', '}}')` and the `\s` class.
- `selectors.dfy` (module `Selectors`) models the six patterns concretely, with
  `re.sub` as a left-to-right scanner.
- `css_fix.dfy` (module `CssFix`) models the region search, the `in_css_block`
  line loop (as a method with a loop, specified by the function `BracePass`)
  and the whole fixer.
- `wrappers.dfy` holds the `Option` type.

## Model

| member | source | states |
|---|---|---|
| Text.Find | fix_css.py:18-24 | `str.find`: the result is -1 or an occurrence at or after `from`, and no occurrence lies between `from` and the result. So -1 means none at all, which includes a `from` past the end. |
| Text.ContainsIff | fix_css.py:54-57 | `pat in s` holds exactly when `pat` occurs at some index of `s`. |
| Text.Split | fix_css.py:49 | `split('\n')` always gives at least one piece, and no piece contains a newline. |
| Text.JoinSplit | fix_css.py:49-66 | Joining the pieces of a split with `'\n'` gives back the original text. |
| Text.SplitJoin | fix_css.py:49-66 | Splitting a `'\n'`-join of newline-free lines gives back exactly those lines. |
| Text.DoubleBracesNoBrace | fix_css.py:62 | `replace('}', '}}')` leaves text without `}` unchanged. |
| Text.DoubleBracesNoNewline | fix_css.py:62 | `replace('}', '}}')` introduces no newline. |
| Text.DoubleBracesAppend | fix_css.py:62 | `replace('}', '}}')` distributes over concatenation. |
| Selectors.RunEnd | fix_css.py:34-39 | A greedy `*` or `+` run ends at the first character outside its class, or at the end of the text. Every character before that is in the class. |
| Selectors.MatchAt | fix_css.py:34-39 | A match starts with whitespace at its first index and ends with a `{` followed by one character that is not `{`; only whitespace lies between the selector's end and that `{`. |
| Selectors.MatchAtSound | fix_css.py:34-39 | What `MatchAt` finds has the pattern's full shape (`MatchShape`): a non-empty whitespace run, the widget literal and `#`, an ASCII letter, identifier characters, the `:`/`::` letters suffix where the pattern has one, a non-empty whitespace run, `{`, and one character that is not `{`. |
| Selectors.MatchAtComplete | fix_css.py:34-39 | Conversely, for a pattern whose widget is a type name, any text of that shape at an index is exactly the match `MatchAt` finds there, so the scanner misses no match and the match is unique. |
| Selectors.SubFromNoMatch | fix_css.py:44-45 | Where the pattern matches at no index, `re.sub` returns the text unchanged. |
| Selectors.SubFrom | fix_css.py:44-45 | `re.sub` with a selector pattern leaves text without a `{` unchanged. |
| Selectors.RewrittenSelectorStable | fix_css.py:34-39 | After a selector opening is rewritten to ` {{`, the same pattern no longer matches there, so a doubled opening is not doubled again. |
| CssFix.Region | fix_css.py:15-29 | `None` exactly when the start marker never occurs. Otherwise the region starts at the first occurrence. It ends at the first `"\n    def "` after the marker, or at the end of the content if there is none. |
| CssFix.BracePass | fix_css.py:49-64 | The line pass produces one output line per input line. |
| CssFix.FixClosingBraces | fix_css.py:50-64 | The `in_css_block` loop, with its four branches, produces exactly `BracePass` of its input lines. |
| CssFix.DoubledIff | fix_css.py:53-62 | The doubling branch is taken exactly for a lone closing-brace line inside a CSS block. A marker line is never one. |
| CssFix.BracePassAt | fix_css.py:53-64 | A newline-free line is changed exactly when it is a lone closing brace inside a CSS block, and then becomes the same line plus one `}`. Marker lines, lines outside blocks and a `}` without leading whitespace are copied. |
| CssFix.LoneBraceDoubling | fix_css.py:60-62 | Doubling a lone closing-brace line gives whitespace and braces that no longer match `^\s+\}$`. |
| CssFix.LoneBraceGrows | fix_css.py:60-62 | On a line without a newline, doubling a lone `}` appends exactly one `}`. |
| CssFix.BracePassKeepsFlags | fix_css.py:53-59 | The fixed lines drive `in_css_block` through the same values as the original lines. |
| CssFix.BracePassIdempotent | fix_css.py:60-62 | The closing-brace pass is idempotent on lines. |
| CssFix.FixBraceLinesSplit | fix_css.py:49-66 | Split, fix, join: the result splits back into exactly the fixed lines, so the line count is preserved. |
| CssFix.FixBraceLinesIdempotent | fix_css.py:49-66 | Fixing the closing braces of a text twice gives the same text as fixing them once. |
| CssFix.SubstituteSelectors | fix_css.py:43-45 | The pattern loop applies each pattern's `re.sub` once, in list order. |
| CssFix.FixMethodRegion | fix_css.py:43-66 | The selector loop followed by split, the closing-brace loop and join computes exactly `FixRegion` of the method text. |
| CssFix.FixedContent | fix_css.py:18-69 | `None` (nothing written) exactly when `def apply_styles(self):` does not occur. Otherwise the text before the region and the text from the region's end onward are unchanged. |
| CssFix.FixCssSelectors | fix_css.py:14-69 | The imperative fixer computes exactly `FixedContent` of its input. |
| Monitor.Handle | main_window.py:99-117 | The mitigator is called at most once, with the observation, and only when the label is -1 and the alert was written without error. |
| Monitor.HandleLogs | main_window.py:99-124 | Every taken observation leaves at least one log entry. The observation is alerted exactly once, as the first entry, unless building the message raised. A classifier fault never leads to mitigation. When neither building nor showing a message raises, the log gets exactly the alert, followed by one error if the mitigation raised. |
| Monitor.Step | main_window.py:94-124 | One iteration only appends to the log and to the mitigations. It takes the queue head, keeps FIFO order and changes nothing when the queue stays empty. It calls the mitigator no more often than it takes observations. |
| Monitor.RunAppendOnly | main_window.py:93-124 | Over any run, the log, the mitigator calls and the taken observations are only appended to. |
| Monitor.RunFifo | main_window.py:94-96 | Taken observations followed by the queue are everything ever enqueued, in order. |
| Monitor.RunMitigatesAtMostOnce | main_window.py:111-113 | Over any run, the observations the mitigator is called with are a subsequence of the observations taken: each taken observation is mitigated at most once, in the order taken. So there are never more calls than observations taken. |
| Monitor.RunAlertsEveryTaken | main_window.py:107-108 | When no message build fails, the log's alerts are exactly the taken observations, in queue order. |
| Monitor.StepWithFailingModel | main_window.py:99-111 | When neither building nor showing a message raises, an iteration whose classifier raises logs the default alert (label 1, score 0.0) for the head, and nothing else. |
| Monitor.RunWithFailingModel | main_window.py:99-111 | With a classifier that always raises, and when neither building nor showing a message raises, each taken observation gets exactly one default alert, and the mitigator is never called. |
| Monitor.RunFailingModelNeverMitigates | main_window.py:99-111 | With a classifier that always raises, the mitigator is never called, whatever the window does. |
| Monitor.ThreatApp.constructor | main_window.py:20-30 | The app starts with an empty queue, an empty log, the flag cleared and no TTPs. |
| Monitor.ThreatApp.Start | main_window.py:63-78 | The flag is set and the log is untouched. Each call starts threads anew (there is no guard), and fewer threads start when a step raises. |
| Monitor.ThreatApp.Stop | main_window.py:89-91 | The flag is cleared. |
| Monitor.ThreatApp.SafeRun | main_window.py:80-87 | A crashing sensor appends exactly one `MonitorCrash` entry. The flag is not touched. |
| Monitor.ThreatApp.ConsumeStep | main_window.py:95-124 | One iteration changes the app's state exactly as `Step` says, and keeps the FIFO and mitigation invariant. |
| Monitor.ThreatApp.Consume | main_window.py:93-124 | With the flag set, the state after the loop is `Run` of the ticks. With the flag clear, nothing changes. |
| Monitor.ThreatApp.ExtractTtps | main_window.py:130-149 | A failing dialog changes nothing. A cancelled dialog empties the TTPs. Otherwise the log gets either the extracted TTPs, which are kept, or an extraction error, which empties the TTPs. |
| Monitor.ThreatApp.ExportPdf | main_window.py:151-166 | With a file name, the report receives the current log and the last TTPs (empty when none were extracted), and a failed export appends one error. Otherwise the log does not change. |

## Left out

- Threads, `threading.Event` and the one-second timed `queue.get` are not modelled.
  - The consumer runs one iteration per `Tick`, and sensor output arrives as each tick's `arrivals`.
  - There may be more than one consumer thread (`ConsumerThreads` above 1): after a second `start`, or after `stop` and `start` within one `get(timeout=1)`. Several consumers then drain the same queue and interleave their log entries. `Consume`, `RunAlertsEveryTaken` (alerts in queue order) and `HandleLogs` (an error right after its alert) describe a single consumer only.
  - `stop` takes effect between `Consume` calls. A `stop` issued by another thread during a call is not modelled.
  - Thread starts are ghost counters.
- The window is not modelled: `QTextEdit.append`, the toolbar, the timer and `refresh`.
  - Inside `consume`, an exception from the window is the `Glitch` input of a tick.
  - A second exception raised inside the consumer's own error handler (main_window.py:124) would end the consumer thread. That case is not modelled.
- Monitor.ThreatApp.ExtractTtps: does not model window failures. One can happen right after the TTPs are logged (main_window.py:137); it would also log an extraction error and empty the TTPs. Another can happen after an extraction error is logged (main_window.py:142); it skips line 143, so `last_ttps` keeps its old value, which the model never produces.
- Monitor.ThreatApp.ExportPdf: does not model a window failure after a successful export (main_window.py:158). That failure would log an export error.
- The text of log messages, including `{score:.3f}` formatting, is not modelled. Log entries are constructors.
- `print` calls are not modelled.
- The classifier, mitigator, sensors, `infer_ttps`, `export_report` and file dialogs are outcome inputs. Their internals are not part of this model.
- Reading and writing `ui/dashboard_window.py` is not modelled. `FixCssSelectors` returns the new content, and `None` means nothing is written.
- The model follows the code in these places:
  - A classifier fault is only printed and adds no log entry (main_window.py:102-105).
  - `start` has no already-running guard (main_window.py:63-74).
  - `stop` simply clears the flag, with no intermediate stopping state (main_window.py:89-91).
- The selector rewrites are proved stable only at a rewritten position (`Selectors.RewrittenSelectorStable`). The whole six-pattern pass is not idempotent, and no such lemma is claimed. On a line like `" #a { #b {x"`, the first match's `[^{]` consumes the space before `#b`, so `#b` is rewritten only by a second pass.
- `re.sub` is modelled as a deterministic scanner. This is faithful because no part of these patterns can give characters back to the next part, so backtracking never changes a match.
