# Verification of agentprof's core algorithms

agentprof profiles coding-agent sessions from their JSONL event logs. This Dafny project models five of its
components, each a set of loops over text or state, and proves what they promise for every input and every
run. `dafny verify dfyconfig.toml` checks all of it.

- **Syntax highlighter** (`Utf8`, `Html`, `Scanners`, `Colours`, `Toml`, `TomlColours`, `Highlight`). Three byte
  scanners turn source text into HTML with `<span>` tags; TOML has a second pass over the HTML of the first. An
  independent HTML reader, which knows nothing of tokens, gives back exactly the source, every character in its
  colours, and what is coloured and what is not is then told from that text alone. Texts are byte strings, one
  `char` per byte, and `Utf8.Slice` demands character boundaries, so no modelled slice can panic.
- **Dual parse and re-alignment** (`JsonText`, `TailDetector`, `EventParser`, `SchemaAudit`). Two passes over
  the same lines drop different lines; a filter puts them back in step. This rests on a theorem about the
  heuristic that recognises a half-written last line, stated against the JSON grammar of RFC 8259.
- **Session store and dual-path composer** (`Order`, `Store`, `DualPath`). Three SQLite tables refine one map
  from ids to reports over every run of operations, with statement failures at any point; the composer merges
  its listing with the adapter's.
- **Substring scanners** (`Chars`, `Notices`, `HomePaths`). The extraction of announced tools from notices and
  the search for home directories, whose correctness hangs on the borders of their patterns.
- **Live watch** (`Watch`, `Banner`). Reloads, the refresh queue, the keys of both modes, and the banner that
  packs pending calls into the width of the screen.

Code that updates variables in loops is modelled by methods with loops, and objects by classes; each is tied to
a specification function, about which the lemmas speak.

## Where the code and its documentation disagree

- The highlighter says that its output is always well-formed HTML (lines 55-58 of
  `xtask/src/visual_guide/highlight.rs`). TOML indexes behind the end of its text when an assignment without a
  value ends the source (line 261). `Toml.TomlReads` gives the exact condition, `Toml.Stops`: an odd number of
  equals signs in the trailing run of equals signs and spaces of the plain text behind the last coloured piece.
- `crates/agentprof-storage/src/upsert.rs` says that `INSERT OR REPLACE` updates in place (lines 9-15); SQLite
  deletes the old row and inserts a new one, and the episodes column, which the statement does not name, falls
  back to its default. The reading is a parameter, `Store.Replace`, and everything about reports and child rows
  is proved under both. The readings differ exactly if a report is written again behind episodes that are not
  the default (`Store.ReadingsAgreeExactly`). The same file says that callers write a report and its episodes
  together (lines 262-269), as `analyze` and `db ingest` do; `watch` (lines 229-246 of
  `crates/agentprof-cli/src/cmd/watch.rs`) and the OTLP receiver (line 151 of
  `crates/agentprof-storage/src/otlp/sink_storage.rs`) write the report alone, so that `watch` after `analyze`
  on one session loses its episodes: `Store.WatchForgetsEpisodes`.
- The watch says that Ctrl-C ends it (line 530 of `crates/agentprof-tui/src/watch.rs`). In cross mode it is
  taken for the sort key `c` before the test for it is reached: `Watch.CtrlCSortsInCrossMode`.

## What a caller should know of the composer

- The composer's merge is transparent only while every stored session is still known to the adapter:
  `DualPath.CacheTransparent` is an equivalence.
- The composer lists a session with the adapter's fields but loads the storage's report, also where it has
  just warned that the two differ: `DualPath.ListsOneLoadsTheOther`.

## Assumptions

- The decoders of serde are parameters. `SchemaAudit.DecodersSound` says what is taken for granted of them: the
  raw one accepts only JSON texts, and a line that decodes to an event decodes to a JSON value once trimmed.
- Which SQL statements fail is a parameter of every upsert, and so are clock readings and file times.
- What a reload returns is a script indexed by the number of reloads so far; what arrives in the queue and from
  the keyboard is the argument of the main loop.

## Model

| member | source | states |
|---|---|---|
| `Utf8.EncodeIsChar` | xtask/src/visual_guide/highlight.rs:139-141 | the bytes of every character form one of the sequences that valid UTF-8 is made of, and the first byte tells their number |
| `Utf8.ValidSplit` | xtask/src/visual_guide/highlight.rs:89-117 | cutting valid UTF-8 (section 3 of RFC 3629) at any character boundary leaves two valid texts, so a slice at such an end point never panics |
| `Utf8.ValidSlice` | xtask/src/visual_guide/highlight.rs:89-117 | a slice between two boundaries is valid UTF-8 again |
| `Utf8.NextBoundary` | xtask/src/visual_guide/highlight.rs:139-141 | one character further on from a boundary is a boundary: the fallback branch slices whole characters and moves forward |
| `Utf8.AfterAscii` | xtask/src/visual_guide/highlight.rs:94-108 | behind any ASCII byte of valid UTF-8 lies a boundary, however the scan came to that byte |
| `Html.EscCons` | xtask/src/visual_guide/highlight.rs:49-53 | the three chained replacements escape each character once and independently: no `&` written by one replacement is escaped again by another |
| `Html.EscValid` | xtask/src/visual_guide/highlight.rs:49-53 | escaping keeps valid UTF-8 |
| `Html.OpenIs` | xtask/src/visual_guide/highlight.rs:88-89 | the class of a span is that of its colour: `kw`, `st`, `cm` and `nm` |
| `Html.ReadEsc` | xtask/src/visual_guide/highlight.rs:49-53 | an independent HTML reader, which keeps the colours around every character, decodes escaped text to the text itself in the colours around it |
| `Html.ReadToken` | xtask/src/visual_guide/highlight.rs:88-90 | a token, with its span or without, is read back as its source text in its own colour |
| `Html.ReadRender` | xtask/src/visual_guide/highlight.rs:77-144 | every token list is read back as the characters it covers, each in the colour of its token, with all spans closed and none nested |
| `Html.RenderValid` | xtask/src/visual_guide/highlight.rs:77-144 | the HTML of valid tokens is valid UTF-8 |
| `Scanners.TokenEndBoundary` | xtask/src/visual_guide/highlight.rs:81-142 | every token of valid UTF-8 ends at a character boundary, including string literals whose two-byte step behind a backslash lands inside a character |
| `Scanners.TokensCover` | xtask/src/visual_guide/highlight.rs:77-206 | the tokens partition the source, for every lexer and every text |
| `Scanners.TokenColoured` | xtask/src/visual_guide/highlight.rs:82-142 | the token at a position keeps the promise of its colour (see `TokensColoured`) |
| `Scanners.EscapedQuoteIsFirst` | xtask/src/visual_guide/highlight.rs:94-106 | stepping over every backslash and the byte behind it finds the first quote with an even number of backslashes in front of it, or the end of the text |
| `Scanners.TokensColoured` | xtask/src/visual_guide/highlight.rs:149-206 | a `kw` token is in the keyword list and a plain word is not, a `cm` token has no newline and starts with its comment mark, a `st` token starts with its quote and holds no closing quote between its ends (in Rust no unescaped one, in shell and SQL none of its kind), a `nm` token starts with a digit and holds only number characters |
| `Scanners.HighlightReads` | xtask/src/visual_guide/highlight.rs:55-74 | the output of a one-pass language is well-formed HTML that shows exactly the source, every token in its colour and no span inside a span |
| `Scanners.HighlightInjective` | xtask/src/visual_guide/highlight.rs:55-74 | two sources with the same HTML are the same source |
| `Scanners.ScanCurlyString` | xtask/src/visual_guide/highlight.rs:94-106 | the loop with the two-byte step stops behind the first unescaped quote, told by the parity of the backslashes in front of it, or at the end of the text |
| `Scanners.ScanShellString` | xtask/src/visual_guide/highlight.rs:171-180 | the loop finds the next quote of the same kind, or the end of the text |
| `Scanners.CurlyToken` | xtask/src/visual_guide/highlight.rs:82-141 | one turn of the Rust scanner writes the HTML of the token at its position and stops at that token's end, a boundary |
| `Scanners.HighlightCurly` | xtask/src/visual_guide/highlight.rs:77-144 | the Rust scanner writes exactly the rendered tokens; no slice panics and every turn moves forward |
| `Scanners.ShellToken` | xtask/src/visual_guide/highlight.rs:154-203 | the same for one turn of the shell and SQL scanner, whose comment mark depends on the lead character |
| `Scanners.HighlightShell` | xtask/src/visual_guide/highlight.rs:149-206 | the shell and SQL scanner writes exactly the rendered tokens |
| `Colours.ColoursTrue` | xtask/src/visual_guide/highlight.rs:76-206 | told from the shown text alone, without tokens: no comment mark and no opening quote is left uncoloured, in Rust an uncoloured digit is part of an identifier, no maximal uncoloured identifier is a keyword; every `cm` stretch starts with its mark and reaches the newline or the end of the text, every `st` stretch is one complete literal behind the other, every `kw` stretch is a keyword that ends where the identifier ends, every `nm` stretch is a whole number |
| `Toml.SpaceTables` | xtask/src/visual_guide/highlight.rs:213-215 | the white space that leads a line is told from its bytes just as from its characters |
| `Toml.TomlCover` | xtask/src/visual_guide/highlight.rs:212-229 | the lines, their leading white space, headers and tokens partition the source |
| `Toml.TomlColoured` | xtask/src/visual_guide/highlight.rs:213-228 | a header token runs from its bracket to the first closing bracket; every other token keeps the promise of the shell pass with an empty keyword list |
| `Toml.CopyRun` | xtask/src/visual_guide/highlight.rs:259-270 | pass two copies everything that is not an equals sign |
| `Toml.CopyTag` | xtask/src/visual_guide/highlight.rs:235-270 | pass two copies a whole tag: the only equals sign in it has a quote behind it |
| `Toml.AddsNumber` | xtask/src/visual_guide/highlight.rs:236-256 | the piece that pass two colours is a sign and number characters, or a digit and number characters, directly behind an equals sign and spaces |
| `Toml.NumberedReads` | xtask/src/visual_guide/highlight.rs:230-271 | pass two preserves the meaning of every well-formed HTML text it finishes on: the same text with every colour kept, number spans added on values only (behind an equals sign and spaces, from a sign or digit over number characters), nothing inserted inside a tag or an entity, spans balanced and nesting deeper by at most one |
| `Toml.NumberedFails` | xtask/src/visual_guide/highlight.rs:235-271 | pass two reads behind the end of its text exactly when an odd number of equals signs ends it, counted over its trailing run of equals signs and spaces |
| `Toml.TailRender` | xtask/src/visual_guide/highlight.rs:212-229 | only the plain source text behind the last coloured piece decides about that trailing run |
| `Toml.TomlReads` | xtask/src/visual_guide/highlight.rs:210-272 | TOML highlighting stops exactly on the sources named by `Stops`; on all others it writes well-formed HTML that shows the source in the colours of pass one, with numbers added on values and nesting at most two |
| `Toml.NoTailIsSafe` | xtask/src/visual_guide/highlight.rs:235-271 | a source without an equals sign in its trailing run, such as any that ends in a newline, is highlighted |
| `Toml.ColourlessStops` | xtask/src/visual_guide/highlight.rs:235-271 | for a source without quotes, comments and brackets the condition reads off the source itself |
| `Toml.StopsExamples` | xtask/src/visual_guide/highlight.rs:235-261 | the concrete inputs: `x =` stops the program, `x ==` does not |
| `Toml.TomlLine` | xtask/src/visual_guide/highlight.rs:213-228 | one line: its leading white space unescaped, then the header or the shell pass |
| `Toml.LinePass` | xtask/src/visual_guide/highlight.rs:212-229 | the line loop writes exactly the rendered tokens |
| `Toml.NumberTurn` | xtask/src/visual_guide/highlight.rs:235-270 | one turn of pass two: what it writes and where it stands, or that it reads behind the end |
| `Toml.NumberPass` | xtask/src/visual_guide/highlight.rs:232-271 | the loop of pass two computes `Numbered`, with every slice at a boundary |
| `Toml.HighlightToml` | xtask/src/visual_guide/highlight.rs:210-272 | both passes together: none exactly when `Stops`, otherwise HTML that shows the source in those colours |
| `TomlColours.PassOneTrue` | xtask/src/visual_guide/highlight.rs:212-229 | told line by line from the source: behind white space, a line with a bracket is a keyword up to its first closing bracket and plain behind it, and every other line has its comments and strings coloured, and nothing else |
| `TomlColours.PassTwoMarks` | xtask/src/visual_guide/highlight.rs:235-258 | reading the written HTML from the left, no equals sign is followed, spaces left aside, by a digit or a minus sign outside a span |
| `TomlColours.MarkedAssignment` | xtask/src/visual_guide/highlight.rs:235-258 | so an equals sign without another one directly in front of it never has a bare number behind it |
| `TomlColours.TomlTrue` | xtask/src/visual_guide/highlight.rs:210-272 | whenever TOML is highlighted, the HTML shows the source with its lines coloured as they say, number spans added on values only, and none missed on an assignment |
| `Highlight.Highlight` | xtask/src/visual_guide/highlight.rs:55-74 | the entry point: for all four languages and every valid text, well-formed HTML that shows the text, except that TOML stops the program exactly on the texts of `Stops`; what is coloured and what is not is told from the shown text for each language: slash comments, escapes and numbers in Rust, `#` comments in bash, `--` comments in SQL, headers, comments, strings and values in TOML |
| `Highlight.ColoursHold` | xtask/src/visual_guide/highlight.rs:67-74 | in Rust, bash and SQL every coloured piece is what its colour says, for the real keyword lists |
| `TailDetector.LooksIncomplete` | crates/agentprof-adapters/src/copilot/parser.rs:116-134 | the loop, with its depth wrapping at 32 bits, answers the automaton's verdict |
| `TailDetector.CompleteJson` | crates/agentprof-adapters/src/copilot/parser.rs:105-134 | the detector never fires on a JSON text (sections 2 to 7 of RFC 8259), whatever its nesting, strings and escapes; no length limit is needed |
| `TailDetector.NeutralValue` | crates/agentprof-adapters/src/copilot/parser.rs:105-129 | scanning a JSON value leaves the three variables as they were, never goes below the depth it started from, and goes above it by exactly the nesting of objects |
| `TailDetector.DetectorExact` | crates/agentprof-adapters/src/copilot/parser.rs:105-134 | the detector says of every non-empty prefix of an object whether it is cut, if and only if objects are nested less than 2^31 deep in it: the brace that reaches that depth wraps the counter around |
| `TailDetector.CutObject` | crates/agentprof-adapters/src/copilot/parser.rs:105-134 | so it fires on every non-empty proper prefix and not on the whole of an object that is nested less deep than that, or shorter than 2^31 characters |
| `TailDetector.TrimKeepsVerdict` | crates/agentprof-adapters/src/copilot/parser.rs:74-76 | trimming a line does not change the verdict |
| `TailDetector.DepthBound` | crates/agentprof-adapters/src/copilot/parser.rs:117-129 | the depth never exceeds the number of characters, so it stays within 32 bits on shorter lines |
| `EventParser.Accounting` | crates/agentprof-adapters/src/copilot/parser.rs:61-84 | every line is counted exactly once, as blank, event, warning or the skipped last line, and at most one line of a live session is skipped |
| `EventParser.WarningsNamed` | crates/agentprof-adapters/src/copilot/parser.rs:63-66 | each warning names its own line and says what went wrong on it |
| `EventParser.WarningsOrdered` | crates/agentprof-adapters/src/copilot/parser.rs:61-84 | the line numbers of the warnings strictly increase |
| `EventParser.WarningsComplete` | crates/agentprof-adapters/src/copilot/parser.rs:73-81 | every line that deserves a warning has one |
| `EventParser.IsMonotonic` | crates/agentprof-adapters/src/copilot/parser.rs:136-148 | the loop over neighbours answers whether any two events, however far apart, are inverted, an unrecognised event counting as the epoch |
| `EventParser.LastStartIsLast` | crates/agentprof-adapters/src/copilot/parser.rs:163-173 | metadata exists exactly if some session start was parsed, and it is the last one's |
| `EventParser.MetaBuilder.constructor` | crates/agentprof-adapters/src/copilot/parser.rs:151-160 | the builder starts empty |
| `EventParser.MetaBuilder.Absorb` | crates/agentprof-adapters/src/copilot/parser.rs:163-173 | a session start overwrites all seven fields; other events change nothing |
| `EventParser.MetaBuilder.Build` | crates/agentprof-adapters/src/copilot/parser.rs:175-190 | the metadata is that of the last start; the directory name is never used when a start was seen |
| `EventParser.EventsDecoded` | crates/agentprof-adapters/src/copilot/parser.rs:67-72 | the events are the non-blank lines that decode, in order |
| `EventParser.LineWarningsHonest` | crates/agentprof-adapters/src/copilot/parser.rs:62-81 | every line that cannot be read has its `Io` warning, every non-blank line that fails to decode has its `Json` warning if and only if it is not the last line of a live session that looks cut off, and there are no other warnings |
| `EventParser.CollectLines` | crates/agentprof-adapters/src/copilot/parser.rs:58-84 | the loop over the lines produces those events and warnings, and leaves the builder holding the last start |
| `EventParser.ParseEvents` | crates/agentprof-adapters/src/copilot/parser.rs:44-103 | the result told from the lines, the live flag and the decoder: it fails exactly if no line decodes to a session start; otherwise the decoded events, exactly the deserved warnings, `OutOfOrder` exactly if two events are out of time, and the metadata of the last start, field by field |
| `EventParser.CutLastLine` | crates/agentprof-adapters/src/copilot/parser.rs:73-81 | a last line that is a proper prefix of an object nested less than 2^31 deep, and does not decode, leaves no warning in a live session and exactly one otherwise |
| `SchemaAudit.ReadRawLines` | xtask/src/schema_audit/scanner.rs:93-112 | fails exactly if some line cannot be read; otherwise it returns exactly the non-blank lines whose trimmed text decodes, with their values and their numbers counted from 1 |
| `SchemaAudit.BadLinesExact` | xtask/src/schema_audit/classifier.rs:186-192 | the set built from the warnings holds exactly the lines that the typed pass warned about |
| `SchemaAudit.RawKeptIsGood` | xtask/src/schema_audit/classifier.rs:166-181 | a line that the raw pass keeps was either turned into an event or warned about: it cannot have been skipped as cut off, because the detector never fires on JSON |
| `SchemaAudit.EventsMatched` | crates/agentprof-adapters/src/copilot/parser.rs:61-84 | the typed events are those of the matched lines |
| `SchemaAudit.RawMatched` | xtask/src/schema_audit/classifier.rs:182-197 | the aligned raw lines are those of the matched lines |
| `SchemaAudit.AlignmentExact` | xtask/src/schema_audit/classifier.rs:97-105 | zipping the aligned raw lines with the events pairs every event with its own line and drops nothing on either side, for every file and both settings of the live flag |
| `SchemaAudit.MatchedFromLines` | xtask/src/schema_audit/classifier.rs:166-181 | each pair comes from one line, on which both decoders agree, and the pairs are in line order |
| `SchemaAudit.FileKind` | xtask/src/schema_audit/classifier.rs:106-107 | counting one event keeps the counts per kind exact |
| `SchemaAudit.FileUnknown` | xtask/src/schema_audit/classifier.rs:108-118 | filing one event keeps each group exact: its count, its first two samples and its first session |
| `SchemaAudit.ClassifyAudit` | xtask/src/schema_audit/classifier.rs:104-119 | the inner loop files exactly the items of one session |
| `SchemaAudit.TypeOfFiles` | xtask/src/schema_audit/classifier.rs:109-109 | an unrecognised event is filed under its own type field, and under the fallback text if it has none |
| `SchemaAudit.Classify` | xtask/src/schema_audit/classifier.rs:86-134 | session and event counts, a count for every kind that occurs, and a group for exactly the type fields that unrecognised events have, the fallback text standing for a missing one, each with the exact count, at most two samples and a session |
| `SchemaAudit.ScannedItems` | xtask/src/schema_audit/classifier.rs:104-105 | the zip drops no event of a scanned file |
| `SchemaAudit.UnknownsOfFile` | xtask/src/schema_audit/classifier.rs:108-111 | in one file, as many events are filed under a type as lines decode to an unrecognised event and have that type field in their own raw text |
| `SchemaAudit.UnknownsExact` | xtask/src/schema_audit/classifier.rs:98-119 | the same over all files: no event is filed under its neighbour's type |
| `SchemaAudit.UnknownFiled` | xtask/src/schema_audit/classifier.rs:108-118 | every unrecognised line of every scanned file has the group of its own type, and that group counts all lines of that type and nothing else |
| `SchemaAudit.TypesApart` | xtask/src/schema_audit/classifier.rs:108-111 | two unrecognised lines with different type fields are in different groups |
| `SchemaAudit.ItemsTotal` | xtask/src/schema_audit/classifier.rs:97-105 | as many events are filed as the event count says |
| `SchemaAudit.KindCountsSum` | xtask/src/schema_audit/classifier.rs:97-107 | the counts per kind sum to the event count |
| `Store.DominantBest` | crates/agentprof-storage/src/upsert.rs:252-258 | the dominant model has the largest total, and of those with it the smallest name |
| `Store.InsertTools` | crates/agentprof-storage/src/upsert.rs:168-188 | the inserts succeed exactly if no tool name repeats and no statement fails, and then add one row per tool and touch no other session's |
| `Store.InsertTurns` | crates/agentprof-storage/src/upsert.rs:199-219 | the inserts add the turns 0 to n-1, the index saturating at 64 bits, and touch no other session's |
| `Store.UpsertStatements` | crates/agentprof-storage/src/upsert.rs:127-219 | the statements inside the transaction: when they succeed, and the three tables after them |
| `Store.Db.constructor` | xtask/src/visual_guide/wiki_05.rs:130-172 | a fresh database is empty and valid |
| `Store.Db.UpsertReport` | crates/agentprof-storage/src/upsert.rs:100-226 | atomic: it succeeds exactly if the report can be stored and no statement fails; then the store remembers that report under its id and nothing else changed, otherwise no table changed. Holds under both readings of REPLACE |
| `Store.Db.UpsertEpisodes` | crates/agentprof-storage/src/upsert.rs:308-329 | sets the episodes of a session that is there and returns 1, or returns 0 and changes nothing |
| `Store.Db.PruneBefore` | crates/agentprof-storage/src/admin.rs:155-192 | deletes exactly the sessions that started earlier than `now` less the retention, told in seconds and nanoseconds and at both ends of 64 bits, with all their child rows; a dry run changes nothing and returns the same count; it fails exactly if a statement does, and then changes nothing |
| `Store.Db.LoadSession` | crates/agentprof-storage/src/query.rs:132-148 | returns the last report stored for the id |
| `Store.Db.LoadEpisodes` | crates/agentprof-storage/src/query.rs:208-224 | returns the last episodes stored for the id |
| `Store.Extreme` | crates/agentprof-storage/src/admin.rs:95-104 | the earliest or the latest of the starts that are not null, whatever the order of the rows |
| `Store.Db.Stats` | crates/agentprof-storage/src/admin.rs:73-130 | the three row counts are those of the stored reports, and the earliest and the latest start are theirs |
| `Store.Replay` | crates/agentprof-storage/src/upsert.rs:100-226 | after any run of upserts, failing ones included, episode updates and prunes on a fresh database, the tables refine the abstract run |
| `Store.UpsertTools` | crates/agentprof-storage/src/upsert.rs:157-188 | clearing and refilling gives the session exactly its report's tools under both readings of REPLACE |
| `Store.UpsertTurns` | crates/agentprof-storage/src/upsert.rs:190-219 | the same for the turns |
| `Store.ChildrenExact` | crates/agentprof-storage/src/upsert.rs:7-18 | no child row is orphaned; each session's tool rows are exactly its report's, and its turn indices exactly 0 to n-1 |
| `Store.RowsExact` | crates/agentprof-storage/src/upsert.rs:127-219 | every column of every row is what the report says: the parent row with the dominant model, the capped call counts of the tools, the output tokens and models of the turns, null elsewhere |
| `Store.RefinementDetermines` | crates/agentprof-storage/src/upsert.rs:1-18 | the abstract store determines all three tables |
| `Store.ReadingsAgree` | crates/agentprof-storage/src/upsert.rs:7-15 | after any run both readings of REPLACE agree on everything but the episodes |
| `Store.ChildTablesAgree` | crates/agentprof-storage/src/upsert.rs:7-18 | after any run both readings leave identical child tables |
| `Store.EpisodesKept` | crates/agentprof-storage/src/upsert.rs:127-134 | after any run, in place a session has the episodes last put since its row was made; with delete and insert it has them too unless its report was written again behind them, and the default then |
| `Store.ReadingsAgreeExactly` | crates/agentprof-storage/src/upsert.rs:7-18 | after any run the two readings leave the same database if and only if no stored session has had its report written again behind episodes other than the default |
| `Store.AgreeThroughout` | crates/agentprof-storage/src/upsert.rs:127-134 | the readings agree at every point of a run if and only if no successful upsert in it hits a row with episodes other than the default, which a caller can tell before the write |
| `Store.PairedRunsAgree` | crates/agentprof-cli/src/cmd/analyze.rs:416-431 | runs in which every report that is written is followed by its episodes, successfully, cannot tell the readings apart |
| `Store.WatchForgetsEpisodes` | crates/agentprof-cli/src/cmd/watch.rs:229-246 | the failing run: a session stored with its episodes, then its report written alone as `watch` does; in place the episodes are kept, with delete and insert they are gone |
| `Store.CutoffMeans` | crates/agentprof-storage/src/admin.rs:161-163 | the cutoff is `now` less 1000 milliseconds a second and one for each whole million nanoseconds; a span too long for 64 bits counts as the longest, a cutoff too early for 64 bits is the earliest |
| `Store.CutoffsAgree` | crates/agentprof-storage/src/admin.rs:161-163 | both ways of computing the saturating cutoff agree for every duration and clock reading |
| `Store.RecentMeans` | crates/agentprof-storage/src/query.rs:63-72 | a query returns exactly the sessions that started no earlier than that |
| `Store.PruneKeepsQueried` | crates/agentprof-storage/src/query.rs:63-72 | the rows that pruning keeps are exactly those that a query over the same window returns |
| `Store.PruneTwice` | crates/agentprof-storage/src/admin.rs:155-192 | pruning again, with the same or a longer retention, finds nothing to delete |
| `Store.WindowsNest` | crates/agentprof-storage/src/query.rs:58-72 | a longer window returns a superset, a later clock a subset |
| `Store.StatsExact` | crates/agentprof-storage/src/admin.rs:73-93 | conservation: the row counts are the sums over the stored reports, in any order of summing |
| `DualPath.MergeUnique` | crates/agentprof-cli/src/data_source.rs:323-334 | two strictly sorted lists of the same references are equal: the order in which the hash map is walked cannot show |
| `DualPath.WarningsHonest` | crates/agentprof-cli/src/data_source.rs:307-320 | with distinct adapter ids the warnings are exactly the sessions on which both sides assert a field and differ, in adapter order |
| `DualPath.DiffFieldsNames` | crates/agentprof-cli/src/data_source.rs:351-363 | a field is named if and only if both sides have a value for it and the values differ; the time of the file comes first and its path last |
| `DualPath.WarningsSay` | crates/agentprof-cli/src/data_source.rs:307-320 | each warning names an adapter entry, the adapter as winner, and the fields in which the store's last entry of that id differs from it; each adapter entry that differs in a field has its warning |
| `DualPath.CacheTransparent` | crates/agentprof-cli/src/data_source.rs:282-296 | with distinct adapter ids, the cached listing equals the sorted adapter listing if and only if the store knows no session that the adapter does not |
| `DualPath.MergeIdempotent` | crates/agentprof-cli/src/data_source.rs:297-335 | with distinct adapter ids, merging the adapter's list over a merged list changes nothing and warns about nothing |
| `DualPath.StorageOrderFree` | crates/agentprof-cli/src/data_source.rs:304-306 | the order of the store's rows does not matter |
| `DualPath.IntoValues` | crates/agentprof-cli/src/data_source.rs:323-323 | the values of the map, each once, in some order |
| `Order.StringLessMeans` | crates/agentprof-cli/src/data_source.rs:329-333 | ids are compared at the first character in which they differ, a prefix coming first |
| `DualPath.SortRefs` | crates/agentprof-cli/src/cmd/list.rs:167-171 | the same references with later starts first, those without a start last, and ids ascending among equal starts |
| `DualPath.DualPathDataSource.constructor` | crates/agentprof-cli/src/data_source.rs:212-215 | the composer starts without warnings |
| `DualPath.MergeHoldsBoth` | crates/agentprof-cli/src/data_source.rs:302-335 | a merge holds each id once: the adapter's last entry where it has the id and otherwise the store's last, later starts first, none last, then by id |
| `DualPath.DualPathDataSource.MergeRefs` | crates/agentprof-cli/src/data_source.rs:297-335 | that merge, newest first; the warnings are appended |
| `DualPath.DualPathDataSource.DrainWarnings` | crates/agentprof-cli/src/data_source.rs:227-233 | returns the warnings and empties the buffer |
| `DualPath.DualPathDataSource.Discover` | crates/agentprof-cli/src/data_source.rs:241-252 | adapter errors, then storage errors, pass through unchanged; otherwise the merge, newest first, or the adapter's own list without a store |
| `DualPath.ListsOneLoadsTheOther` | crates/agentprof-cli/src/data_source.rs:254-265 | a session on which both sides disagree is listed with the adapter's fields while loading it returns the storage's report |
| `DualPath.ListedLoads` | crates/agentprof-cli/src/data_source.rs:254-265 | whatever is listed can be loaded unless the storage fails on it; what the storage lists is loaded from the storage, and the adapter is asked only for what the storage does not know |
| `Chars.FindBehind` | crates/agentprof-adapters/src/copilot/tools_changed.rs:96-98 | a tag without a border, put behind text that is free of it, is found exactly there: the seam creates no earlier match |
| `Notices.BetweenShift` | crates/agentprof-adapters/src/copilot/tools_changed.rs:93-103 | scanning on from an offset is scanning the text behind it |
| `Notices.Scanner.constructor` | crates/agentprof-adapters/src/copilot/tools_changed.rs:93-95 | the scanner starts at the beginning |
| `Notices.Scanner.NextBetween` | crates/agentprof-adapters/src/copilot/tools_changed.rs:95-102 | each call yields the next piece and moves behind its close tag; once there is none, every later call says so |
| `Notices.Scanner.Next` | crates/agentprof-adapters/src/copilot/tools_changed.rs:93-103 | the same for the tags of a notice |
| `Notices.OneBlock` | crates/agentprof-adapters/src/copilot/tools_changed.rs:93-103 | a notice behind text without an open tag is the first block, whatever follows it |
| `Notices.ScanAssembled` | crates/agentprof-adapters/src/copilot/tools_changed.rs:93-103 | the scanner returns exactly the bodies of the blocks a text was assembled from |
| `Notices.Reading` | crates/agentprof-adapters/src/copilot/tools_changed.rs:93-103 | conversely every text has such a reading: the blocks are disjoint, in order, each behind the leftmost open tag left and free of close tags, and what follows the last has no closed notice |
| `Notices.LinesAre` | crates/agentprof-adapters/src/copilot/tools_changed.rs:110-110 | the lines of a block end with a line feed, a carriage return in front of it being dropped, and together are the block |
| `Notices.SplitPieces` | crates/agentprof-adapters/src/copilot/tools_changed.rs:113-113 | the pieces of an announcement have no comma and together, with commas between them, are its text |
| `Notices.ParseNewToolsLine` | crates/agentprof-adapters/src/copilot/tools_changed.rs:108-122 | exactly the names of letters, digits, underscores and hyphens that stand, white space left aside, between the commas behind `New tools available:` at the start of a line; in order |
| `Notices.ExtractFromEvent` | crates/agentprof-adapters/src/copilot/tools_changed.rs:40-56 | exactly the names starting with `mcp__` that some block of a user message's transformed content announces; nothing for other events |
| `Notices.ExtractFromSession` | crates/agentprof-adapters/src/copilot/tools_changed.rs:82-88 | the union over the events |
| `Notices.SessionGrows` | crates/agentprof-adapters/src/copilot/tools_changed.rs:58-63 | the set only grows as events are appended, removal notices included |
| `Notices.LineRoundTrip` | crates/agentprof-adapters/src/copilot/tools_changed.rs:111-119 | a printed announcement line is read back as its names, also when there are none |
| `Notices.BodyRoundTrip` | crates/agentprof-adapters/src/copilot/tools_changed.rs:105-122 | a printed body, with removals and other lines between its announcements, is read back as the announced names |
| `Notices.AnnouncementsNeedNoCare` | crates/agentprof-adapters/src/copilot/tools_changed.rs:124-128 | a body made of announcements of valid names cannot contain a close tag |
| `Notices.ExtractionRoundTrip` | crates/agentprof-adapters/src/copilot/tools_changed.rs:40-56 | from any list of printed notices with open-tag-free text between them, exactly the announced `mcp__` names come back |
| `HomePaths.Overlapped` | xtask/src/pii.rs:105-106 | an occurrence that the non-overlapping search skips is overlapped by the match before it |
| `HomePaths.HidingMatchIsHit` | xtask/src/pii.rs:105-110 | a match that hides an occurrence has the pattern's own word, `home` or `Users`, as its segment |
| `HomePaths.SearchExact` | xtask/src/pii.rs:105-111 | for each pattern, the non-overlapping search finds a real segment if and only if some occurrence has one |
| `HomePaths.PiiExact` | xtask/src/pii.rs:97-111 | a line is flagged if and only if somewhere, overlapping occurrences included, `/home/`, `/Users/` or the Windows prefix is followed by a segment up to the separator, a space, a quote or the end of the line that is neither empty nor `USER`, `<user>` or `<username>` |
| `HomePaths.PrefixNeverMasks` | xtask/src/pii.rs:103-104 | no text put in front of a flagged line can hide the path in it |
| `Watch.RunSafe` | crates/agentprof-tui/src/watch.rs:538-677 | in every reachable state an open detail view belongs to a turn of the single session at hand |
| `Watch.TakeSafe` | crates/agentprof-tui/src/watch.rs:641-671 | every step, reload or key, keeps that |
| `Watch.DispatchKeepsDetail` | crates/agentprof-tui/src/app/state.rs:181-338 | the dispatcher opens a detail view only on an existing turn |
| `Watch.OpensFirstTurn` | crates/agentprof-tui/src/watch.rs:583-607 | because row selections do not survive a key, Enter can only ever open the first turn |
| `Watch.RefreshCountExact` | crates/agentprof-tui/src/watch.rs:633-636 | the counter is the number of successful reloads, saturating at 32 bits |
| `Watch.TakeSelection` | crates/agentprof-tui/src/watch.rs:729-771 | no step moves a selection beyond the last row of the data at hand |
| `Watch.SelectionBound` | crates/agentprof-tui/src/watch.rs:630-677 | although reloads never clamp, no selection passes the last row of the largest table seen |
| `Watch.SelectionWithFixedData` | crates/agentprof-tui/src/watch.rs:762-771 | between reloads a selection in range stays in range and one out of range moves no further out |
| `Watch.TakePending` | crates/agentprof-tui/src/watch.rs:690-744 | a step in cross mode sets, clears or leaves the pending `g`; the help key leaves it |
| `Watch.PendingIsParity` | crates/agentprof-tui/src/watch.rs:723-744 | a `g` is pending exactly if the trailing run of lowercase g, help keys and non-keys removed, is odd |
| `Watch.CrossKeysDo` | crates/agentprof-tui/src/watch.rs:723-772 | in cross mode c, t, s and p choose their sort keys, j and the arrow down go one row down and stop at the last, k and the arrow up go one row up, G goes to the last row |
| `Watch.CrossKeysKeep` | crates/agentprof-tui/src/watch.rs:682-775 | no other key changes the sort key or the selection, and no key of cross mode changes the data, the error, the counter or the other fields of the view |
| `Watch.TwoGsGoToTop` | crates/agentprof-tui/src/watch.rs:734-742 | the first lowercase g only waits, the second goes to the first row |
| `Watch.ViewKeysDo` | crates/agentprof-tui/src/app/state.rs:245-335 | in single mode the numbers choose the views, Tab and l go forward round their ring, Shift-Tab and h back, and the help key opens the overlay |
| `Watch.DetailKeysDo` | crates/agentprof-tui/src/app/state.rs:364-451 | in an open detail view Esc, the numbers, h and l close it, Enter folds or unfolds the selected call alone, j, k and the arrows move by one within the calls of the turn, G goes to the last and a second g to the first |
| `Watch.EndsExactly` | crates/agentprof-tui/src/watch.rs:596-624 | exactly when an event ends the watch, in both modes |
| `Watch.CtrlCSortsInCrossMode` | crates/agentprof-tui/src/watch.rs:745-749 | Ctrl-C in cross mode sorts by calls and never ends the watch, although the comment on line 530 says it does |
| `Watch.TurnsReload` | crates/agentprof-tui/src/watch.rs:542-560 | however many refreshes queue up, each turn reloads at most once, and exactly in the turns in which one arrived |
| `Watch.WatchRunner.constructor` | crates/agentprof-tui/src/watch.rs:194-205 | the initial state |
| `Watch.WatchRunner.DoReload` | crates/agentprof-tui/src/watch.rs:630-677 | a successful reload replaces the data, counts up to the 32-bit limit, clears the error, and drops a detail view whose turn is gone, with a message, or for aggregate data silently; a failed one changes only the error |
| `Watch.WatchRunner.HandleWatchKey` | crates/agentprof-tui/src/watch.rs:682-775 | the keys of the watch, with the early return of the help key in cross mode |
| `Watch.WatchRunner.HandleInput` | crates/agentprof-tui/src/watch.rs:565-625 | watch keys first, then the dispatcher of single mode or the quit keys of cross mode |
| `Watch.WatchRunner.Drain` | crates/agentprof-tui/src/watch.rs:551-556 | empties the queue and tells whether anything was in it |
| `Watch.WatchRunner.Iterate` | crates/agentprof-tui/src/watch.rs:539-627 | one turn: any number of queued refreshes cause exactly one reload, otherwise the event is handled; the recorded trace explains the state |
| `Watch.WatchRunner.RunLoop` | crates/agentprof-tui/src/watch.rs:538-628 | the loop over any script of refreshes and events ends in the state of `Turns`, in which the properties above hold |
| `Banner.DecimalReads` | crates/agentprof-tui/src/watch.rs:855-868 | the counts in the banner are decimal numerals that read back as the numbers, without leading zeros |
| `Banner.JoinShows` | crates/agentprof-tui/src/watch.rs:856-863 | the calls shown are each a tool name with its elapsed time in brackets, with one space between them |
| `Banner.PackCalls` | crates/agentprof-tui/src/watch.rs:861-880 | the downward search shows the largest number of calls that fits, or none, and counts all calls and those not shown |
| `Banner.FormatPendingBanner` | crates/agentprof-tui/src/watch.rs:823-881 | never wider than the screen; one call is shown with its hint, which depends on whether it waits for the user; for two calls or more the largest prefix that fits, its counts reading back as all calls and those not shown, cut only if not even the bare count fits |
| `Banner.FewerCanBeWider` | crates/agentprof-tui/src/watch.rs:862-870 | the width is not monotone in the number of calls shown |

## Left out

- Watch.DispatchKeepsDetail: the dispatcher of single mode is modelled on values and on the four fields that survive a key; the fields that start afresh at every key (row selections of the flame graph and the table, sort order, its pending `g`) are constants.
- Store.Db.LoadSession: the blob of a report is kept as the report itself, so that the codec's own round trip is assumed, and a blob that no longer decodes is not modelled.
- Store.Db.LoadEpisodes: the same holds for the blob of the episodes; the default `{}` is the value `DefaultEpisodes`.
- Store.Db.Stats: the size of the database is not modelled.
- Store.PruneKeepsQueried: the query is modelled as the set of rows it selects; the order of rows with equal start times is open in SQL, and `DualPath.StorageOrderFree` shows that it does not matter.
- SchemaAudit.Classify: the groups of warnings, the counts per agent version and the open/close balance are simple counters and are not modelled; the redacted form of a value, made by truncating its strings, is a field of the value.
- DualPath.DualPathDataSource.LoadSession: `load_episodes` has the same body and is not repeated.
- DualPath.DualPathDataSource.MergeRefs: the mutex around the warnings and its poisoning are not modelled; the sort is an insertion sort, since the sorted list is unique.
- Notices.Scanner.Next: blocks are values rather than borrowed slices, and offsets count characters rather than bytes; the boundaries of the slices are those of found tags.
- HomePaths.PiiExact: the walk over the files that feeds it lines is not modelled.
- Banner.FormatPendingBanner: the text of an elapsed time is part of the call.
- Html.ReadRender: the reader knows the four span classes and three entities that the highlighter writes, not HTML at large.
- Reading files, directories, the environment and the clock; the tables' indexes, vacuuming and export.
- The payloads of the event types beyond kind, time and the fields of a session start.
- Terminal drawing, polling errors, and the details of time formatting.
- The derivation of episodes, the analysis of sessions, waste computation and the OTLP receiver.
