# Youdao dictionary lookup engine: a Dafny model

This project models the lookup engine of a command-line dictionary client
(`engine.go`). The engine picks an engine implementation by name and builds
the address of a query on the Youdao dictionary site. Once the result page is
fetched, it reads the page with six extraction rules and renders the result
as a plain-text report:

- pronunciations;
- plain definitions;
- English word groups;
- Japanese senses;
- web translations;
- web phrases.

The parsed HTML page is not modelled. A `Page` value stands in for it and
holds the texts that the CSS selectors find, in page order. An element the
page lacks reads as empty text: goquery never returns nil, so the source's
nil guards never fire.

Modules:

- `Text`: Go's `strings.TrimSpace` (with `unicode.IsSpace`), `bufio.ScanLines`, `strings.Join`, `strings.Split`, the `%-8s` and `%d` verbs, and the UTF-8 byte length `len(s)`.
- `Lines`: the trim, scan and trim-again line handling that the rules share, plus the two-column layout.
- `Report`: `Pronounce`, `Result` and the report renderer.
- `Pronunciation`, `Definitions`, `English`, `Japanese`, `WebTranslation`, `WebPhrase`: one module per extraction rule.
- `Engine`: `Query`, `Page`, the engine variants, `NewEngine`, `URL` and `Execute`.

Every routine of the source that loops (the report builder and the six rules
with their scanner loops and string builders) is a method with loop
invariants. Each such method is proved equal to a pure reference function,
and the properties are proved about those functions. Strings are sequences of
Unicode code points.

## Model

| member | source | states |
|---|---|---|
| `Report.PronounceText` | engine.go:29-31 | The text is the label immediately followed by the transcription: it starts with the whole label and the rest is the transcription. |
| `Report.RenderReport` | engine.go:43-81 | The buffer written block by block equals `Render(r)`: the title between two delimiter lines, one line per pronunciation, one line per translation, the two web blocks and the origin footer. |
| `Report.WriteLinesBlock` | engine.go:48-61 | Writing a list block appends each item and a newline, then a delimiter line, and appends nothing for an empty list. |
| `Report.WriteLabelledBlock` | engine.go:62-75 | Writing a web block appends its heading, then the items verbatim, then a delimiter line, and appends nothing for an empty list. |
| `Report.RenderStartsWithHeader` | engine.go:44-47 | Every report opens with the title block. |
| `Report.RenderIsHeaderOnly` | engine.go:43-81 | The report is exactly the title block if and only if every list is empty and there is no origin. |
| `Report.RenderEndsWithNewline` | engine.go:76-79 | The report ends with a newline if and only if it has no origin, because the closing delimiter of the footer has no newline after it. |
| `Engine.NewEngine` | engine.go:90-99 | An engine exists exactly for the names "youdao" and "google", and the engine returned is registered under the name asked for. |
| `Engine.NewEngineOfName` | engine.go:90-99 | Each engine is found again by its registered name. |
| `Engine.URLRoundTrip` | engine.go:120-126 | The language and the words can be read back from the address. The condition is that there is a word, no word holds '%' or '/', and the language holds no '/'. Chinese has no language segment. |
| `Engine.PathRoundTrip` | engine.go:121-125 | The language segment and the words joined by "%20" are read back from the path of the address. |
| `Engine.TitleRoundTrip` | engine.go:130 | The title splits on blanks back into the words when no word holds a blank. |
| `Engine.Lookup` | engine.go:128-171 | The stub engine finds nothing. A Youdao result carries the words as its title and the address as its non-empty origin. It has pronunciations only for a single Chinese word, translations only for a single Chinese word or for English or Japanese, and web parts only when they are asked for. |
| `Engine.Execute` | engine.go:129-171 | Running the rules that the language, the word count and the web flag select gives exactly `Lookup`. |
| `Engine.URL` | engine.go:106-126 | The stub engine has the empty address. A Youdao address is the site's base, then the language followed by '/' unless it is Chinese, then the words joined by "%20". |
| `Engine.GoogleFindsNothing` | engine.go:106-113 | The stub engine has the empty address and returns the zero result, whose report is a bare title block with an empty title. |
| `Engine.YouDaoReportEnds` | engine.go:130-131 | A Youdao report opens with the title block of the query's words and does not end with a newline, because it always has an origin. |
| `Pronunciation.PairLines` | engine.go:180-188 | Every entry's transcription holds '['. When the starting label has no '[', no entry's label has one. |
| `Pronunciation.ScanSpan` | engine.go:176-192 | The scan of one span equals the pairing of its trimmed lines, with the label starting out empty. |
| `Pronunciation.ScanBlock` | engine.go:176-193 | A container's entries are those of its spans, in order. |
| `Pronunciation.ExtractPronounce` | engine.go:174-197 | The entries of all containers, in order, equal `PronounceRule`. |
| `Pronunciation.PairLinesCount` | engine.go:182-187 | A span yields exactly one entry per line that holds '['. |
| `Pronunciation.PairLinesAt` | engine.go:180-188 | The transcription line at position k gives the entry whose index is the number of transcription lines before k. Its label is the latest non-transcription line before k, or the starting label. |
| `Pronunciation.SpanPronouncesPairing` | engine.go:177-188 | Within a span, each transcription line is paired with the latest label line of that same span, or with the empty label when no label line precedes it. |
| `Pronunciation.PronounceRuleCount` | engine.go:174-197 | The rule yields as many entries as there are transcription lines in all spans of all containers together. |
| `Definitions.ExtractTranslate` | engine.go:199-205 | One line per definition item, in page order, equal to the item's text as given. |
| `English.CollectTitles` | engine.go:219-225 | The collected titles are the content titles, each trimmed, in order. |
| `English.ExtractEngTranslate` | engine.go:207-232 | One line per word group, in page order, equal to `EnglishRule`. The shared buffer is empty again after each group. |
| `English.EnglishRuleAt` | engine.go:209-229 | Line k is the line of word group k: the marker padded to eight columns, a blank, and the trimmed titles joined with "; ". |
| `English.GroupLineSplit` | engine.go:218-226 | A group line can be taken apart again. Its first column trims back to the marker and a blank follows. A group without titles leaves nothing after that blank. Otherwise the rest splits on "; " back into the trimmed titles, provided no title holds ';'. |
| `English.GroupLineOfTrimmed` | engine.go:218-226 | For an already-trimmed first span and titles, the line is the padded span, a blank, and the titles joined with "; ". |
| `English.TwoGroupsExample` | engine.go:226 | The groups ("n.", ["greeting"]) and ("v.", ["greet", "salute"]) give the lines "n.       greeting" and "v.       greet; salute". |
| `Japanese.ExtractJapTranslate` | engine.go:234-287 | Only the first container is read: its numbered senses, then its plain senses. The result equals `JapaneseRule`, and a page without a container gives nothing. |
| `Japanese.ScanOrdered` | engine.go:241-249 | The numbered list equals `OrderedLines`: only non-blank titles appear, trimmed and numbered. |
| `Japanese.OrderedLinesCount` | engine.go:241-249 | There is one numbered line per item whose trimmed title is not empty. |
| `Japanese.OrderedLineAt` | engine.go:244-246 | A non-blank item k gives the line numbered k + 1, placed after the lines of the non-blank items before it, so blank items leave gaps in the numbering. |
| `Japanese.OrderedLineNumber` | engine.go:246 | The number in front of a numbered line is all digits and reads back as the position. It is followed by ". " and then the title. |
| `Japanese.AppendUnordered` | engine.go:252-285 | The plain list appends, after the numbered lines, each sense's lines in order: its trimmed title and two lines per example. |
| `Japanese.AppendSense` | engine.go:253-284 | A plain sense appends its trimmed title, even when that title is empty, and then two lines per example. |
| `Japanese.AppendExample` | engine.go:260-282 | An example appends its joined title and then its sentence indented by five blanks. |
| `Japanese.ScanExampleTitle` | engine.go:264-277 | An example's title is its first paragraph's trimmed non-empty lines, concatenated with no separator. |
| `Japanese.UnorderedLinesCount` | engine.go:252-285 | The plain list gives one line per sense plus two per example. |
| `Japanese.ExampleTitleOneLine` | engine.go:264-277 | An example title holds no line break. |
| `Japanese.ExampleTitleOfLines` | engine.go:264-277 | A paragraph written as trimmed non-empty lines gives exactly those lines concatenated. |
| `WebTranslation.ScanBlock` | engine.go:299-314 | One container's block equals `BlockText`: the trimmed title and a newline, then each trimmed content line indented by four blanks and closed by a newline. |
| `WebTranslation.WriteContentLine` | engine.go:306-308 | The three writes of a content line append the indentation, the line and a newline. |
| `WebTranslation.ExtractWebTranslate` | engine.go:289-318 | One block per container, in page order, equal to `WebTranslationRule`. |
| `WebTranslation.WebTranslationRuleAt` | engine.go:290-315 | Block k of the rule is the block of container k. Containers without a title or a paragraph are not skipped. |
| `WebTranslation.BlockLines` | engine.go:299-314 | When a block is scanned back into lines, it gives the trimmed title and then each trimmed content line with its indentation, provided the title is a single line. |
| `WebTranslation.BlankContentBlock` | engine.go:303-309 | A container whose paragraph is empty or blank yields only its title line. |
| `WebPhrase.ScanUsages` | engine.go:323-331 | The usages are the group's trimmed lines longer than one UTF-8 byte, in order. |
| `WebPhrase.ExtractWebPhrase` | engine.go:320-344 | Groups with at least two usages yield one line each, in page order. The result equals `WebPhraseRule`. |
| `WebPhrase.WebPhraseRuleCount` | engine.go:336-340 | The rule has exactly one line per group that has two usages or more. |
| `WebPhrase.KeepUsagesMembers` | engine.go:327-329 | A line is kept as a usage if and only if it has two code points or more, or a single code point outside ASCII. |
| `WebPhrase.KeepUsagesNormal` | engine.go:326-330 | Every usage is non-empty, trimmed and a single line. |
| `WebPhrase.PhraseLineSplit` | engine.go:339 | A phrase line can be taken apart again. Its first column trims back to the first usage, a blank follows, and the line ends with a newline. What lies between splits on "; " back into the other usages when no usage holds ';'. |
| `WebPhrase.WebPhraseRuleLinesEnd` | engine.go:339-340 | Every line of the rule is non-empty and ends with a newline. |
| `Text.TrimSpace` | engine.go:177 | The result of `strings.TrimSpace` is trimmed: neither end is white space. |
| `Text.TrimSpaceRemovesSpace` | engine.go:177 | What trimming keeps is an infix of the input, and everything it removes is white space. |
| `Text.TrimSpaceFixesTrimmed` | engine.go:181 | Trimming leaves a string unchanged if and only if it is already trimmed, so trimming is idempotent. |
| `Text.SplitLines` | engine.go:178-181 | The scanner's lines hold no newline. |
| `Text.TerminatedOfSplitLines` | engine.go:178-181 | For a text without carriage returns, the scanned lines, each followed by a newline, rebuild the text. A final newline is added when the text had none. |
| `Text.SplitLinesOfTerminated` | engine.go:304-309 | Newline-terminated lines scan back to the same lines, provided none holds a newline or ends with a carriage return. |
| `Text.SplitOnJoin` | engine.go:226 | Splitting a join on its separator gives the parts back when no part holds the separator's first character. |
| `Text.PadRight` | engine.go:226 | `%-8s` keeps the string as the prefix of a field of eight code points, or of its own length when it is longer. |
| `Text.PadRightBlanks` | engine.go:226 | What `%-8s` adds is blanks only. |
| `Text.Utf8LenAboveOne` | engine.go:328 | A string is longer than one byte if and only if it has two code points or more, or a single one outside ASCII. |
| `Text.DecimalString` | engine.go:246 | `%d` of a natural number is a non-empty string of digits with no leading zero. |
| `Text.ParseDecimalString` | engine.go:246 | The decimal digits read back as the number. |
| `Lines.NormalizedLinesIdempotent` | engine.go:264-272 | Text made of trimmed non-empty lines, one per line, normalizes back to exactly those lines. |
| `Lines.ColumnsSplit` | engine.go:226 | A two-column line is the head's field, one blank and the rest, and the first field trims back to the head. |

## Left out

- The HTTP request, the status check and `log.Fatal`: `Execute` receives the fetched page as a `Page` value. `decodeHTMLBody` and `detectContentCharset` (engine.go:346 onwards) are not part of this model.
- goquery's HTML parsing and CSS selection: each `Page` field holds the texts the selectors would find.
- `elSpans.First()` in `extractEngTranslate`: the page supplies the texts of all spans of a word group, and the first one is the marker, even when it is a content-title span.
- Scanner errors: `bufio.Scanner` stops on a line longer than 64 KiB. The model scans lines of any length. In the source, what such an error drops differs by rule:
  - pronunciations (engine.go:189-192): the entries of the span appended before the long line are kept, and the rest of that span is skipped;
  - Japanese examples (engine.go:273-276): the example adds neither its title line nor its sentence line;
  - web translations (engine.go:310-313): the container adds no block;
  - web phrases (engine.go:332-335): the group adds no line.
- `log.Error` messages on scanner errors: they are output only.
- The command-line front end (`main.go`, `cmd/`) is not part of this model.
- Definition items are kept exactly as the page gives them, untrimmed, as engine.go:201 does.
- Web-translation containers are never skipped: a missing title or paragraph gives empty text, because the source's nil checks cannot fire.
