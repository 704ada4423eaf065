# Research aggregator core, modelled in Dafny

The system answers a research question from three kinds of sources:
- an AI-search service (Perplexity);
- a web search (Serper);
- a list of custom URLs whose pages are fetched and reduced to text.

It pools the results and asks a language model (OpenAI) for one answer with citations. Then it marks which sources the answer used, audits the balance between source types, and formats the answer as Markdown. An older version of the pipeline ranks and summarises sources itself. The browser side has two pieces: an editor for the custom URL list, and a results panel. The panel counts sources, judges their balance, highlights paragraphs by source type and adds AI-search insights.

The project models that core as Dafny modules, one per source file:

| module | models |
|---|---|
| `ApiUtils` | `src/lib/api/api-utils.ts`: title backfill, citations, URL extraction |
| `CustomSources` | `src/lib/api/customSources.ts`: URL checks, HTML clean-up, truncation, the extraction cascade, the batch |
| `Markdown` | `cleanHtmlFromPerplexity` and `ensureProperMarkdownFormatting` of `src/lib/api/research.ts` |
| `Perplexity` | `src/lib/api/perplexity.ts`: result mapping, the chat fallback, snippet formatting |
| `Synthesizer` | `src/lib/api/openai.ts`: prompt context, SOURCES USED parsing, the safety net, used marking, error mapping |
| `Research` | `research` in `src/lib/api/research.ts`: the pool, the fallbacks, the balance note |
| `Legacy` | `research-app/src/lib/api/research.ts`: scores, filtering and sorting, key terms, the generated summary |
| `UrlManager` | `src/components/CustomUrlManager.tsx`, as a class with the list state and its three operations |
| `ResultsPanel` | the computations of `src/components/ResearchResults.tsx`, with the panel state as a class |

Shared helper modules:
- `Wrappers`: `Option`.
- `Text`: JavaScript character classes, trim, split/join, search and replace, decimal numbers.
- `Seqs`: removing repeats keeping the first, a stable descending sort, take.
- `Url`: the scheme, host and path split of `new URL`.
- `Types`: the records of `src/lib/types.ts` and `research-app/src/lib/types.ts`, and `Outcome`, a value or an `ApiError`.

`cleanHtmlFromPerplexity` occurs twice with the same text, in `src/lib/api/research.ts:274-352` and `src/lib/api/perplexity.ts:258-336`. It is modelled once, in `Markdown`, and used by both modules.

The network, the language model, the DOM and readability libraries, `JSON.parse`, the environment keys and the clock are not modelled as code. What each call returned is a parameter of the function that models the caller. A fetch is `Fetched`, a chat reply is `ChatReply`, a completion is `CompletionReply`, and an extraction result is an optional value. Where the code has a loop or reassigns its state step by step, a `method` mirrors it and is proved equal to the specification function: for example `Research.Research`, `Legacy.FilterAndSortSources`, `Legacy.ExtractKeyTerms`, `CustomSources.TruncatePreservingSentences` and `Synthesizer.CollectUsedUrls`. The two stateful components are classes: `UrlManager.CustomUrlManager` and `ResultsPanel.Panel`.

Things the code does that are easy to miss, each stated as a lemma:
- The Markdown formatter is not idempotent. A bare address is wrapped in angle brackets. Formatting again strips the bracketed address as an HTML tag and leaves nothing (`Markdown.FormatterNotIdempotent`).
- Custom-page entities are decoded once, with `&amp;` fourth of six. So `&amp;lt;` gives `&lt;` but `&amp;quot;` gives `"` (`CustomSources.AmpAfterLtDecodesOnce`, `CustomSources.QuotAfterAmpDecodesTwice`).
- The synthesizer's SOURCES USED marker is case-sensitive and needs the colon. Its section ends at the first blank line, so subsections after a blank line are never read (`Synthesizer.UsedSectionStopsAtBlankLine`).
- The main pipeline does not remove repeated sources. The knowledge-graph entry of the older pipeline has an empty URL, so it is always filtered out (`Legacy.GraphEntryDropped`).
- Fetched custom sources that the answer never used are reported as underrepresented at 0% (`Research.UnusedCustomFlagged`).
- In the panel, a percentage shown as 20% can still fail the 20% balance test (`ResultsPanel.RoundedShareMisleads`).
- The panel's warning names custom sources as missing even when the result has none (`ResultsPanel.WarningNamesAbsentCustom`).

## Model

| member | source | states |
|---|---|---|
| ApiUtils.CapitalizeWordsPointwise | src/lib/api/api-utils.ts:29-32 | Splitting on spaces, capitalising each word and rejoining upper-cases exactly the characters that start a word (the first, or one after a space) and leaves every other character as it was. |
| ApiUtils.DashesToSpaces | src/lib/api/api-utils.ts:24 | The result holds no `-` or `_` and has the same length; each dash or underscore becomes a space and every other character stays in place. |
| ApiUtils.StripExtension | src/lib/api/api-utils.ts:25 | The result is a prefix of the segment, and it differs from it exactly when the segment ends in a `.` followed by one or more word characters, in which case it is cut at that dot. |
| ApiUtils.NonEmptyParts | src/lib/api/api-utils.ts:21 | Every kept part is non-empty; each non-empty part is kept as often as it occurs in the input; nothing is kept exactly when every part is empty. |
| ApiUtils.NonEmptyPartsConcat | src/lib/api/api-utils.ts:21 | Dropping empty parts distributes over concatenation, so the kept parts stay in input order. |
| ApiUtils.TitleFromUrl | src/lib/api/api-utils.ts:20-55 | The title is never empty: the last non-empty path segment (dashes as spaces, extension dropped) with each word capitalised when there is one; else the host name without `www.` and its last label, capitalised; else "Untitled Source". |
| ApiUtils.FallbackTitle | src/lib/api/api-utils.ts:61-67 | With a snippet the title is `Source: `, the snippet's first 30 characters (all of it when shorter) and `...`; without one it is "Untitled Source". |
| ApiUtils.EnsureSourceHasTitle | src/lib/api/api-utils.ts:10-68 | Only the title changes and it is non-empty; a source with a non-blank title is returned unchanged; otherwise the title comes from the URL when it parses, and from the snippet fallback when there is no URL or it does not parse. |
| ApiUtils.EnsureSourceHasTitleIdempotent | src/lib/api/api-utils.ts:10-13 | Backfilling a backfilled source changes nothing. |
| ApiUtils.FormatSourcesWithTitles | src/lib/api/api-utils.ts:73-75 | Same length and order; each element is its source with only the title backfilled, and titled sources are untouched. |
| ApiUtils.FormatCitation | src/lib/api/api-utils.ts:80-90 | The citation is `[n] ` (n = index + 1) when an index is given, then the title (or "Untitled Source") in quotes, then ` (url)` when the URL is truthy. |
| ApiUtils.MatchLength | src/lib/api/api-utils.ts:96 | A match at the start is `http://` or `https://` plus at least one non-stop character and runs up to a stop character or the end. |
| ApiUtils.MatchUrlsTakesToken | src/lib/api/api-utils.ts:96-97 | A URL token followed by a space or the end is taken whole, and matching resumes after it. |
| ApiUtils.ExtractUrls | src/lib/api/api-utils.ts:95-98 | Every extracted string is `http(s)://` followed by at least one non-whitespace character and no whitespace. |
| ApiUtils.ExtractUrlsAfterToken | src/lib/api/api-utils.ts:95-98 | A URL token followed by a space is extracted first, then the URLs of the rest. |
| ApiUtils.ExtractUrlsOfJoined | src/lib/api/api-utils.ts:95-98 | Extracting the URLs of space-joined URL tokens gives back exactly those tokens, in order. |
| CustomSources.IsValidUrl | src/lib/api/customSources.ts:155-162 | A URL is accepted exactly when it parses and its protocol is `http:` or `https:`; an accepted URL has a non-empty host name and a path starting with `/`. |
| CustomSources.FindElement | src/lib/api/customSources.ts:168 | A found element is the leftmost `<tag` (ignoring case), attributes without `>`, the `>`, then the first closing `</tag>` after it. |
| CustomSources.FindElementExact | src/lib/api/customSources.ts:168 | An element is found exactly when the text holds one, so nothing found means no element. |
| CustomSources.RemoveElements | src/lib/api/customSources.ts:350-351 | Text without such an element is left unchanged; otherwise the text before the first element is kept and the element becomes a space. |
| CustomSources.RemoveElementsLeavesNone | src/lib/api/customSources.ts:350-351 | For a tag without spaces, no element of that tag is left after the removal. |
| CustomSources.StripTags | src/lib/api/customSources.ts:352 | After stripping, no `<` is followed later by a `>`, except an empty `<>` kept by the one-character-minimum variant. |
| CustomSources.CleanHtml | src/lib/api/customSources.ts:347-363 | Cleaned text neither starts nor ends with whitespace. |
| CustomSources.CleanHtmlSpacing | src/lib/api/customSources.ts:359-360 | Cleaned text has no line break and no two adjacent whitespace characters; its only whitespace is the plain space. |
| CustomSources.AmpAfterLtDecodesOnce | src/lib/api/customSources.ts:354-356 | `&amp;lt;` decodes to `&lt;`, because `&amp;` is decoded after `&lt;`. |
| CustomSources.QuotAfterAmpDecodesTwice | src/lib/api/customSources.ts:356-357 | `&amp;quot;` decodes all the way to `"`, because `&quot;` is decoded after `&amp;`. |
| CustomSources.ElementText | src/lib/api/customSources.ts:168 | The capture is exactly the text between the found element's `>` and its closing tag, and is absent exactly when no element is found. |
| CustomSources.ExtractTitleFromHtml | src/lib/api/customSources.ts:167-180 | The title is trimmed; it is the trimmed `<title>` text when that is non-empty; otherwise the trimmed, cleaned `<h1>` text, or '' when there is no `<h1>` either. |
| CustomSources.NextSentenceEnd | src/lib/api/customSources.ts:375-381 | The first `[.!?]` followed by whitespace or the end at or after the search position, or none. |
| CustomSources.LastSentenceEnd | src/lib/api/customSources.ts:377-383 | The last sentence end of the text, or none when it has no sentence end. |
| CustomSources.Truncated | src/lib/api/customSources.ts:368-397 | A text that fits is returned unchanged; the result never exceeds the limit by more than 3; a longer text is either its first `max` characters plus `...` or a non-empty prefix longer than half the limit. |
| CustomSources.TruncatedEndsAtSentence | src/lib/api/customSources.ts:385-387 | With a sentence end past the middle of the window, the result ends with the punctuation of the last sentence end of the window. |
| CustomSources.TruncatedHardCut | src/lib/api/customSources.ts:389-396 | Without a sentence end or a blank line past the middle, the result is the window plus `...`. |
| CustomSources.TruncatedAtBlankLine | src/lib/api/customSources.ts:389-392 | Without a sentence end past the middle of the window, and with the last blank line of the window past the middle, the text is cut just before that blank line. |
| CustomSources.TruncatePreservingSentences | src/lib/api/customSources.ts:368-397 | The loop remembering the last regex match returns exactly `Truncated`. |
| CustomSources.CreateSnippet | src/lib/api/customSources.ts:508-513 | Empty exactly for empty content; content that fits is returned as it is; otherwise the truncation, at most 3 characters over the limit. |
| CustomSources.FirstLongContainer | src/lib/api/customSources.ts:244-254 | The index of the first container group whose cleaned text exceeds 300 characters; none when no group does. |
| CustomSources.KeptParagraphs | src/lib/api/customSources.ts:261-268 | Every kept paragraph is longer than 20 characters and is a single line. |
| CustomSources.KeptParagraphsConcat | src/lib/api/customSources.ts:261-268 | Selecting paragraphs distributes over concatenation, so the kept paragraphs are in document order. |
| CustomSources.KeptParagraphsOne | src/lib/api/customSources.ts:261-268 | A single paragraph is kept, cleaned, exactly when it is non-empty and its cleaned text exceeds 20 characters. |
| CustomSources.MainContent | src/lib/api/customSources.ts:232-281 | The cleaned first long container (over 300 characters) when there is one; otherwise the kept paragraphs joined by blank lines; otherwise the cleaned body text, or '' without one. |
| CustomSources.ExtractMainContent | src/lib/api/customSources.ts:232-281 | The loops return exactly `MainContent`. |
| CustomSources.FindLongContainer | src/lib/api/customSources.ts:244-254 | The container loop returns the cleaned text of the first group that counts, and nothing when none does. |
| CustomSources.CollectParagraphs | src/lib/api/customSources.ts:257-268 | The paragraph loop collects exactly `KeptParagraphs`. |
| CustomSources.AllText | src/lib/api/customSources.ts:286-342 | The visible text is trimmed and single-spaced. |
| CustomSources.AllTextKeepsVisible | src/lib/api/customSources.ts:286-342 | Apart from whitespace, the result has exactly the characters of the raw visible text, in order. |
| CustomSources.ExtractAllText | src/lib/api/customSources.ts:313-336 | The fragment loop returns exactly `AllText`. |
| CustomSources.Or | src/lib/api/customSources.ts:92 | `a || b` is `a` when `a` is non-empty and `b` otherwise, so it is non-empty exactly when one of them is. |
| CustomSources.ReadabilityStep | src/lib/api/customSources.ts:75-101 | Accepted exactly when the raw content exceeds 200 and the cleaned content 300 characters; it keeps the page URL and more than 300 characters, and its title is non-empty when the URL is. |
| CustomSources.FirstTruthy | src/lib/api/customSources.ts:200-207 | The `||` chain is non-empty exactly when some element is truthy, and then it is the first truthy element. |
| CustomSources.StructuredStep | src/lib/api/customSources.ts:185-227 | Accepted exactly when a title is present and the content exceeds 200 characters; the URL is the object's own or ''. |
| CustomSources.PatternStep | src/lib/api/customSources.ts:110-127 | Accepted exactly when the main content exceeds 300 characters; it keeps the page URL and the trimmed title, and its content is at most 15003 characters. |
| CustomSources.AllTextStep | src/lib/api/customSources.ts:129-138 | Accepted exactly when the text exceeds 200 characters; the title is the HTML title or the URL. |
| CustomSources.FirstPresent | src/lib/api/customSources.ts:75-141 | The first strategy output present, with every earlier one absent; none when all are absent. |
| CustomSources.FetchFromUrl | src/lib/api/customSources.ts:32-150 | Nothing for an invalid URL, a thrown request, a status other than 200 or an empty body; otherwise the first strategy that passes, and nothing exactly when none does. |
| CustomSources.PageSnippet | src/lib/api/customSources.ts:419-421 | Content up to 300 characters is kept; longer content gives its first 300 characters and `...`. |
| CustomSources.PageSource | src/lib/api/customSources.ts:425-432 | The record carries the URL, title and content, the page snippet, source `custom`, used false and no other field. |
| CustomSources.FetchSingleUrl | src/lib/api/customSources.ts:402-437 | Rejected exactly for an invalid URL, with the "Invalid URL format" reason; otherwise the page record when something was extracted, and null when nothing was. |
| CustomSources.InvalidUrls | src/lib/api/customSources.ts:450-455 | Exactly the URLs failing validation, in input order; empty exactly when all are valid. |
| CustomSources.SettledErrors | src/lib/api/customSources.ts:485-489 | One message per rejected outcome; empty exactly when all are fulfilled. |
| CustomSources.GatheredBatch | src/lib/api/customSources.ts:474-502 | The sources are the non-null fulfilled values in order, and the error is present exactly when some outcome was rejected. |
| CustomSources.SettleAllFor | src/lib/api/customSources.ts:470-471 | Every settled outcome rejects only an invalid URL, and every fetched record is a `custom`, unused record of its own URL. |
| CustomSources.SettledSourcesDistinct | src/lib/api/customSources.ts:467-490 | From distinct URLs the gathered sources are `custom`, unused records of distinct URLs from the list. |
| CustomSources.CustomSourcesResult | src/lib/api/customSources.ts:442-464 | An empty list gives no sources and "No custom URLs provided"; any invalid URL gives no sources and "Invalid URLs detected: " followed by the invalid URLs joined by ", ". |
| CustomSources.FetchFromCustomSources | src/lib/api/customSources.ts:442-503 | The method returns exactly `CustomSourcesResult`. |
| CustomSources.GatherSettled | src/lib/api/customSources.ts:474-502 | The `forEach` returns exactly `GatheredBatch`. |
| CustomSources.CustomBatchAfterValidation | src/lib/api/customSources.ts:449-502 | Once every URL is valid, the batch has no error and its sources are `custom` records of distinct listed URLs. |
| CustomSources.ProcessBatch | src/lib/api/customSources.ts:518-534 | One outcome per item, in item order, each the item's own outcome. |
| Markdown.DropNamedEntities | src/lib/api/research.ts:320 | Text without `&` is left unchanged. |
| Markdown.DropNamedEntitiesLeavesNone | src/lib/api/research.ts:320 | After the rule no named entity `&[a-z]+;` is left anywhere in the text. |
| Markdown.CloseBold | src/lib/api/research.ts:328 | The fix never lengthens the text, leaves text without `*` alone and introduces no whitespace other than the plain space. |
| Markdown.CloseBoldRemovesOnlySpace | src/lib/api/research.ts:328 | The fix removes whitespace and nothing else. |
| Markdown.BulletGroup | src/lib/api/research.ts:334-335 | Where the bullet pattern matches, its captured character is inside the text and is not the mark. |
| Markdown.FixBullet | src/lib/api/research.ts:334-335 | Without a bullet match the text is unchanged; with one, everything up to the captured character becomes the mark and one space and the rest is kept; the fix introduces no line break. |
| Markdown.NumberGroup | src/lib/api/research.ts:336 | Where the numbered-item pattern matches, its captured character is inside the text and is not `.`. |
| Markdown.FixNumbered | src/lib/api/research.ts:336 | Without a numbered-item match the text is unchanged; with one, everything up to the captured character becomes `1. ` and the rest is kept; the fix introduces no line break. |
| Markdown.DropEmptyHeading | src/lib/api/research.ts:339 | A line is either kept whole or emptied. |
| Markdown.FixHeading | src/lib/api/research.ts:340 | A run of hashes directly before a non-space becomes exactly `# `; any other text is unchanged. |
| Markdown.FixLineStarts | src/lib/api/research.ts:334-340 | The line-start fixes introduce no whitespace other than the plain space. |
| Markdown.BreakSentencesFramed | src/lib/api/research.ts:343 | On text whose only whitespace is the plain space, every line break produced sits in a `\n\n` pair between `[.!?]` and an upper-case letter. |
| Markdown.TrimKeepsBreaksFramed | src/lib/api/research.ts:349 | Trimming keeps every line break framed. |
| Markdown.CleanHtmlFromPerplexity | src/lib/api/research.ts:274-352 | The cleaned text neither starts nor ends with whitespace. |
| Markdown.CleanHtmlFromPerplexityEmpty | src/lib/api/research.ts:275 | Empty text comes back empty. |
| Markdown.CleanHtmlFromPerplexityBreaks | src/lib/api/research.ts:274-352 | After cleaning, every line break is one of a pair inserted between sentence punctuation and an upper-case letter, and all other whitespace is plain spaces. |
| Markdown.CleanHtmlFromPerplexityOfWord | src/lib/api/research.ts:274-352 | A single plain word that looks like neither a tag, entity, bold marker, list item nor heading is left as it is. |
| Markdown.PerplexityDecodeOfPlain | src/lib/api/research.ts:278-320 | Text without `<` and `&` has nothing to decode. |
| Markdown.LinkAt | src/lib/api/research.ts:376 | A link match is `[`, text without `]`, `]`, only whitespace, `(`, target without `)`, `)`. |
| Markdown.LinkFix | src/lib/api/research.ts:376 | Text without `[` is unchanged. |
| Markdown.LinkFixRemovesOnlySpace | src/lib/api/research.ts:376 | The link fix removes whitespace and nothing else. |
| Markdown.BareUrlLength | src/lib/api/research.ts:379 | A bare address starts with `http://` or `https://`, is longer than 7 characters and holds no whitespace or comma. |
| Markdown.WrapUrls | src/lib/api/research.ts:379 | Wrapping never shortens the text. |
| Markdown.WrapUrlsAddsOnlyBrackets | src/lib/api/research.ts:379 | Wrapping adds angle brackets and nothing else. |
| Markdown.WrapUrlsAfterParen | src/lib/api/research.ts:379 | An address right after `(` or `[` is copied unchanged and the rest of the text is processed after it. |
| Markdown.WrapUrlsAfterSpace | src/lib/api/research.ts:379 | An address anywhere else is put between angle brackets and the rest of the text is processed after it. |
| Markdown.WrapUrlsCopy | src/lib/api/research.ts:379 | Text in which no address starts is copied unchanged in front of the processing of what follows. |
| Markdown.WrapUrlsWithoutH | src/lib/api/research.ts:379 | Text without an `h` holds no address to wrap. |
| Markdown.RemoveControls | src/lib/api/research.ts:388 | No display control is left, and text without one is unchanged. |
| Markdown.CapBlankLines | src/lib/api/research.ts:391 | Capping never lengthens the text, empties exactly empty text and keeps its first character. |
| Markdown.CapBlankLinesCaps | src/lib/api/research.ts:391 | No run of three line breaks is left. |
| Markdown.CapBlankLinesRemovesOnlyNewlines | src/lib/api/research.ts:391 | Capping removes line breaks and nothing else. |
| Markdown.FindSourcesUsed | src/lib/api/research.ts:396 | The first position at or after `from` where the case-insensitive `SOURCES\s*USED` matches, or none. |
| Markdown.ExactPhraseMatches | src/lib/api/research.ts:395-396 | The exact phrase tested for is one of the spellings the heading pattern accepts. |
| Markdown.MarkSourcesHeading | src/lib/api/research.ts:396 | `\n\n## ` is inserted before the first match and nothing else changes; without a match the text is unchanged. |
| Markdown.MarkSubheading | src/lib/api/research.ts:400-402 | `### ` is inserted before the first case-insensitive occurrence of the label and nothing else changes; without one the text is unchanged. |
| Markdown.FormatSourceSections | src/lib/api/research.ts:395-403 | Without the exact phrase `SOURCES USED` nothing changes, and no display control is introduced. |
| Markdown.SourcesHeadingInserted | src/lib/api/research.ts:395-396 | When the exact phrase is present, the heading is always inserted, at or before it. |
| Markdown.EnsureProperMarkdownFormatting | src/lib/api/research.ts:357-406 | The formatted answer has no display control characters; without the exact phrase `SOURCES USED` it is the formatted body, and with it the body after the source-section step, which adds at least the `\n\n## ` heading. |
| Markdown.FormatBody | src/lib/api/research.ts:361-392 | Before the source headings, the text has no display controls and no whitespace at either end. |
| Markdown.CapBlankLinesKeepsNoControls | src/lib/api/research.ts:388-391 | Capping blank lines keeps a text free of display controls. |
| Markdown.FormatterNotIdempotent | src/lib/api/research.ts:357-406 | Formatting is not idempotent: a bare address is wrapped in angle brackets, and formatting that again strips it as a tag, leaving nothing. |
| Perplexity.SplitSentences | src/lib/api/perplexity.ts:345 | Splitting always yields at least one piece. |
| Perplexity.SplitSentencesCons | src/lib/api/perplexity.ts:345 | A piece without a cut point, then `. ` and text not starting with whitespace, is cut off whole. |
| Perplexity.SplitSentencesOfPiece | src/lib/api/perplexity.ts:345 | A piece without a `.`-whitespace cut point is not split. |
| Perplexity.SplitSentencesOfJoined | src/lib/api/perplexity.ts:345 | Pieces without cut points joined with `. ` split back into the same pieces, when no later piece starts with whitespace. |
| Perplexity.BulletLine | src/lib/api/perplexity.ts:349 | Every piece becomes a bullet: `• `, non-empty text, a final `.`. |
| Perplexity.BulletLineOfSentence | src/lib/api/perplexity.ts:349 | A trimmed piece without a final `.` becomes `• piece.`. |
| Perplexity.Bullets | src/lib/api/perplexity.ts:347-349 | At most one bullet per piece, each a well-formed bullet. |
| Perplexity.BulletsOfNonBlank | src/lib/api/perplexity.ts:348 | Blank pieces are the only ones dropped: without them there is one bullet per piece, in order. |
| Perplexity.BreakAfterPunct | src/lib/api/perplexity.ts:355 | Empty exactly for empty text, and the first character is kept. |
| Perplexity.BreakAfterPunctBreaks | src/lib/api/perplexity.ts:355 | After the rule, every sentence mark followed by whitespace is followed by exactly one blank line and then text. |
| Perplexity.BreakAfterPunctKeepsText | src/lib/api/perplexity.ts:355 | Only whitespace is replaced: the other characters stay, in order. |
| Perplexity.FormatSnippetForReadability | src/lib/api/perplexity.ts:341-359 | Empty stays empty; list-like text (three or more pieces, all under 100 characters) becomes one bullet per non-blank piece joined by line breaks; other text keeps its visible characters in order, has no run of three line breaks, and each `.`, `!` or `?` followed by whitespace is followed by exactly one blank line and then text. |
| Perplexity.CapKeepsBreaks | src/lib/api/perplexity.ts:356 | Capping runs of line breaks at two keeps every sentence mark followed by exactly one blank line. |
| Perplexity.Numbered | src/lib/api/perplexity.ts:113 | A numbered label starts with its prefix and is not blank. |
| Perplexity.SnippetOf | src/lib/api/perplexity.ts:116-122 | Only the cleaned content when there is no extract; only the cleaned extract when content equals the extract. |
| Perplexity.MapHit | src/lib/api/perplexity.ts:111-134 | Each hit keeps its URL, gets source `perplexity`, high priority exactly for the first three and medium otherwise, the formatted snippet, and its own title or `Perplexity Result n`; the title is never empty. |
| Perplexity.EnhancedAnswer | src/lib/api/perplexity.ts:137-142 | Empty exactly when the answer is missing or empty; otherwise the cleaned answer between the analysis heading and the footer. |
| Perplexity.SearchWithPerplexity | src/lib/api/perplexity.ts:81-160 | A usable search body gives one source per hit, in order, and the enhanced answer with no error; a failed status or any exception gives the chat fallback. |
| Perplexity.AnswerUrls | src/lib/api/perplexity.ts:198-199 | Every URL found is `http(s)://` followed by characters other than whitespace and `)`, and ends where those do. |
| Perplexity.FallbackUrls | src/lib/api/perplexity.ts:205-206 | Every URL found in the answer or cited appears exactly once, with those of the answer first in the order they first occur. |
| Perplexity.FallbackUrlsIsOneDedupe | src/lib/api/perplexity.ts:205-206 | Removing repeats in two steps is the same as removing them once from the concatenation. |
| Perplexity.LastQuoteBefore | src/lib/api/perplexity.ts:217 | The last quote mark before the given index, or none when there is none. |
| Perplexity.QuotedTitle | src/lib/api/perplexity.ts:217 | A found title is non-empty, has no quote mark and sits between quote marks at the end of the text, up to whitespace. |
| Perplexity.QuotedTitleComplete | src/lib/api/perplexity.ts:217 | Whenever such a quoted text ends the context, it is the title found. |
| Perplexity.SourceLabel | src/lib/api/perplexity.ts:212 | The default label is not blank. |
| Perplexity.Before | src/lib/api/perplexity.ts:216 | The context is the at most 100 characters right before the URL. |
| Perplexity.ContextTitle | src/lib/api/perplexity.ts:211-221 | The title is the quoted text ending the 100 characters before the URL's first occurrence, and `Perplexity Source n` when the URL does not occur or no quote matches. |
| Perplexity.FallbackSources | src/lib/api/perplexity.ts:209-230 | One source per URL, in order. |
| Perplexity.FallbackSource | src/lib/api/perplexity.ts:223-229 | The source has the URL, its context title, the fixed chat snippet, source `perplexity`, and high priority for the first three. |
| Perplexity.FallbackToPerplexityChat | src/lib/api/perplexity.ts:163-253 | A successful call gives one source per collected URL and the cleaned answer under the analysis heading and above the chat footer; a failed call gives no sources, an empty answer and the failure message. |
| Perplexity.FallbackSourcesDistinct | src/lib/api/perplexity.ts:205-230 | The fallback sources have pairwise different URLs, cover every URL found or cited, and exactly the first three are high priority. |
| Synthesizer.WebSources | src/lib/api/openai.ts:35-42 | One source per web result, in order, with the link as URL, source `serper` and a non-empty title. |
| Synthesizer.AllSources | src/lib/api/openai.ts:97 | AI-search, web and custom sources in that order, nothing dropped; the AI-search ones are the titled AI-search results. |
| Synthesizer.Candidates | src/lib/api/openai.ts:48-49 | The candidates are drawn from the list, in order, and each is high priority or has no priority. |
| Synthesizer.CandidatesConcat | src/lib/api/openai.ts:48-49 | Filtering candidates distributes over concatenation. |
| Synthesizer.PriorityUrls | src/lib/api/openai.ts:48-53 | At most three priority URLs. |
| Synthesizer.FirstCandidatesTagged | src/lib/api/openai.ts:48-61 | A candidate with a URL and fewer than three candidates before it is tagged high priority. |
| Synthesizer.TaggedIsCandidate | src/lib/api/openai.ts:53-61 | A tagged line's URL is the URL of one of the first three candidates. |
| Synthesizer.Header | src/lib/api/openai.ts:61 | The header starts `[n] "` with the 1-based position, and ends with ` [HIGH PRIORITY]` exactly when tagged. |
| Synthesizer.PerplexityEntries | src/lib/api/openai.ts:58-63 | One entry per AI-search result, in order, tagged exactly when its URL is a priority URL. |
| Synthesizer.PerplexityContext | src/lib/api/openai.ts:56-76 | No results give the `NO PERPLEXITY RESULTS AVAILABLE` text; results give the header and the entries; a non-empty AI-search answer is appended under its own heading. |
| Synthesizer.WebEntries | src/lib/api/openai.ts:79-85 | Entry i of the web listing is the untagged header `[i+1] "title" (url)` with the result's snippet (or nothing) under it. |
| Synthesizer.WebContext | src/lib/api/openai.ts:79-85 | Empty exactly when there are no web results; otherwise the web header followed by the entries separated by blank lines. |
| Synthesizer.CustomBody | src/lib/api/openai.ts:92 | A custom source shows its content when it has one, else its snippet. |
| Synthesizer.CustomEntries | src/lib/api/openai.ts:88-94 | Entry i of the custom listing is the untagged header `[i+1] "title" (url)` with the source's content, else its snippet, under it. |
| Synthesizer.CustomContext | src/lib/api/openai.ts:88-94 | Empty exactly when there are no custom sources; otherwise the custom header followed by the entries separated by blank lines. |
| Synthesizer.FindMarker | src/lib/api/openai.ts:188 | The first position at or after `from` where the case-sensitive `SOURCES\s*USED:` starts, or none. |
| Synthesizer.LazyEnd | src/lib/api/openai.ts:188 | The lazy capture stops at the first blank line, final line break or end of text. |
| Synthesizer.UsedSection | src/lib/api/openai.ts:188 | The section exists exactly when the marker occurs, and the captured text holds no blank line. |
| Synthesizer.UsedSectionNeedsUpperCase | src/lib/api/openai.ts:188 | The match is case-sensitive: text without `SOURCES` has no section. |
| Synthesizer.UsedSectionStopsAtBlankLine | src/lib/api/openai.ts:188 | The section ends at the first blank line, so later blank-separated subsections are not read. |
| Synthesizer.ParenUrl | src/lib/api/openai.ts:193-194 | A match is the non-empty text inside the first `(...)`, without `)`. |
| Synthesizer.ParenUrlOfListing | src/lib/api/openai.ts:193-195 | A listed line `… (url)` yields its URL when nothing before it opens a parenthesis. |
| Synthesizer.UrlsInLines | src/lib/api/openai.ts:190-197 | At most one URL per line, each non-empty and without `)`. |
| Synthesizer.ScanSection | src/lib/api/openai.ts:190-197 | The `forEach` over the section's lines collects exactly `UrlsInLines`. |
| Synthesizer.ListedUrls | src/lib/api/openai.ts:187-203 | With a `SOURCES USED:` section, the URLs in parentheses on its lines; without one, every source's URL. |
| Synthesizer.UrlsInLinesSound | src/lib/api/openai.ts:190-197 | Every collected URL is the parenthesised URL of one of the section's lines. |
| Synthesizer.UrlsInLinesComplete | src/lib/api/openai.ts:190-197 | Every line holding a non-empty `(...)` contributes its URL. |
| Synthesizer.CountUsed | src/lib/api/openai.ts:206 | The count never exceeds the AI-search results, and is zero exactly when none of them has a URL among the used ones. |
| Synthesizer.UsedUrls | src/lib/api/openai.ts:187-218 | The listed URLs, with the first two AI-search URLs appended exactly when the safety net fires. |
| Synthesizer.CollectUsedUrls | src/lib/api/openai.ts:187-218 | The list built up and reassigned as written is exactly `UsedUrls`. |
| Synthesizer.MarkUsed | src/lib/api/openai.ts:224-241 | Each source is kept, with `used` true exactly when it has a URL among the used ones. |
| Synthesizer.Answered | src/lib/api/openai.ts:183-248 | A completed call returns the query, the used URLs, every source marked, and the content with the missing-source warning in front exactly when the safety net fires. |
| Synthesizer.CallError | src/lib/api/openai.ts:249-268 | The thrown error names the synthesizer, carries the HTTP status when there is one (500 otherwise), and its message is `OpenAI API error: ` plus the API's message (else the error's), or `Error summarizing with OpenAI: ` plus the message for other failures. |
| Synthesizer.Summarize | src/lib/api/openai.ts:18-270 | The call succeeds exactly when the completion came back, and a failure always names the synthesizer. |
| Synthesizer.SummarizeWithOpenAI | src/lib/api/openai.ts:18-270 | The steps as written return exactly `Summarize`. |
| Synthesizer.NoSectionMarksAllUsed | src/lib/api/openai.ts:199-203 | Without a section, every source with a URL is marked used. |
| Synthesizer.SafetyNetKeepsPerplexity | src/lib/api/openai.ts:209-218 | When the first AI-search result has a URL, at least one AI-search source is always marked used. |
| Synthesizer.WarningOnlyWithSafetyNet | src/lib/api/openai.ts:209-235 | The answer is the content as it came, unless no AI-search result was listed; only then is the warning put in front. |
| Research.CustomStage | src/lib/api/research.ts:24-44 | Custom sources are fetched only when URLs were given; with none, the batch is empty and carries no error. |
| Research.PerplexityStage | src/lib/api/research.ts:46-63 | An AI-search response exists exactly when its key is configured, and it is the adapter's response. |
| Research.WebStage | src/lib/api/research.ts:69-81 | A missing key or a failed web search contributes no organic entries; a successful one contributes exactly the organic entries returned. |
| Research.WebItems | src/lib/api/research.ts:92-99 | The organic entries can be mapped exactly when none of them is `null`, and the mapping keeps them all in order. |
| Research.WebSource | src/lib/api/research.ts:93-99 | A web result enters the pool with its link as URL, its title and snippet, source `serper` and used false. |
| Research.Pool | src/lib/api/research.ts:84-106 | The pool holds every AI-search result, then every web result, then every custom source, in order and with nothing dropped. |
| Research.ForSynthesis | src/lib/api/research.ts:138-143 | One entry per web result: its link, its title or `Untitled`, its snippet or ''. |
| Research.UsedOfType | src/lib/api/research.ts:169-171 | The count of used sources of one type never exceeds the pool size. |
| Research.UsedOfTypeConcat | src/lib/api/research.ts:169-171 | The count adds up over a concatenation, so each used source of the type counts once wherever it stands. |
| Research.UsedOfTypeOne | src/lib/api/research.ts:169-171 | A single source counts one exactly when it has the type and is marked used. |
| Research.UsedOfTypeZero | src/lib/api/research.ts:169-171 | The count is zero exactly when no source of that type is marked used. |
| Research.QuotientBounds | src/lib/api/research.ts:178-180 | The whole-number quotient is the largest `q` with `b * q <= a`. |
| Research.PercentRounds | src/lib/api/research.ts:178-180 | The percentage is the nearest whole number to `100 * c / t`, halves rounded up, as `Math.round` does. |
| Research.PercentUnique | src/lib/api/research.ts:178-180 | Any whole number within the rounding bounds is the percentage. |
| Research.PercentOfHalf | src/lib/api/research.ts:178-180 | Half of the used sources is 50%. |
| Research.PercentOfThird | src/lib/api/research.ts:178-180 | A third of the used sources is 33%. |
| Research.PercentOfNone | src/lib/api/research.ts:178-180 | No used sources of a type is 0%. |
| Research.PercentOfAll | src/lib/api/research.ts:178-180 | All used sources of one type is 100%. |
| Research.SharesOf | src/lib/api/research.ts:169-186 | Shares exist exactly when some source was used; each type's share is the rounded percentage of its used count over the total used; the target is 33 when custom sources were fetched and 50 otherwise. |
| Research.Noted | src/lib/api/research.ts:187-214 | With every type within 10 points of the target the answer is unchanged; otherwise it is the answer behind a `[NOTE: ...]` paragraph. |
| Research.NoteSentences | src/lib/api/research.ts:187-214 | The note names, in the order AI search, web, custom, each type more than 10 points above the target as overrepresented and each more than 10 below as underrepresented, with its percentage, and names no balanced type; custom sources are judged only when some were fetched. |
| Research.WithBalanceNote | src/lib/api/research.ts:168-215 | The answer is changed exactly when something was used and some type is out of balance, and the change only puts the note in front. |
| Research.NoteImbalance | src/lib/api/research.ts:168-215 | The sentence-by-sentence assembly returns exactly `WithBalanceNote`. |
| Research.NothingUsedNoNote | src/lib/api/research.ts:177 | When no source is used, no note is added. |
| Research.NotedCustomLast | src/lib/api/research.ts:207-210 | A custom share of 0% against 33% is named last, just before the answer. |
| Research.UnusedCustomFlagged | src/lib/api/research.ts:185-213 | Fetched custom sources that the answer never used are reported as underrepresented at 0%. |
| Research.NotedPerplexityFirst | src/lib/api/research.ts:197-200 | A 100% AI-search share is named first in the note. |
| Research.SingleTypeFlagged | src/lib/api/research.ts:169-213 | When only AI-search sources were used, the note starts by calling them overrepresented at 100%. |
| Research.EvenPairBalanced | src/lib/api/research.ts:184-193 | AI-search and web sources used equally, with no custom sources fetched, give 50% each and no note. |
| Research.EvenTripleBalanced | src/lib/api/research.ts:184-193 | All three types used equally, with custom sources fetched, give 33% each and no note. |
| Research.FallbackAnswer | src/lib/api/research.ts:231-237 | A failed synthesis shows the AI-search answer behind the fallback notice when there is one, and the fixed failure message otherwise. |
| Research.Synthesis | src/lib/api/research.ts:108-242 | An empty pool gives the no-results message; without the synthesizer key the pool is kept, the answer falls back and one error names the missing key. |
| Research.Answered | src/lib/api/research.ts:157-223 | A synthesized answer adds no error, the pool comes back marked with the synthesizer's used URLs, and the answer is the synthesizer's behind the balance note computed on the marked pool, with left-over markup cleaned. |
| Research.Gathered | src/lib/api/research.ts:83-106 | The pool can be built exactly when no organic entry is `null`. |
| Research.ResearchOf | src/lib/api/research.ts:11-266 | The result always carries the query and the generation time. |
| Research.Research | src/lib/api/research.ts:11-266 | The step-by-step orchestration returns exactly `ResearchOf`. |
| Research.Merge | src/lib/api/research.ts:84-106 | Growing the pool by concatenation gives exactly `Pool`. |
| Research.GatherAll | src/lib/api/research.ts:23-81 | The adapters run in turn; each failure is noted and the next adapter still runs. |
| Research.Synthesize | src/lib/api/research.ts:108-242 | The synthesis step as written returns exactly `Synthesis`. |
| Research.UnexpectedErrorAnswer | src/lib/api/research.ts:255-265 | When building the pool throws, the outer handler answers with the error message and no sources. |
| Research.NoResultsAnswer | src/lib/api/research.ts:239-250 | An empty pool gives the formatted no-results answer and no sources. |
| Research.SynthesisFallback | src/lib/api/research.ts:224-238 | Without a synthesized answer, the pool is kept, the answer falls back and exactly one synthesizer error is noted. |
| Research.SynthesisFailureAnswer | src/lib/api/research.ts:108-250 | The whole run then returns the formatted fallback answer and the pool as gathered, with one error more than the gathering steps noted. |
| Research.UsedMarking | src/lib/api/research.ts:161-166 | After synthesis each source is used exactly when it has a URL that the synthesizer counted as used. |
| Research.SynthesisKeepsPool | src/lib/api/research.ts:157-238 | Synthesis keeps the pool entry by entry, changing at most `used`. |
| Research.SourcesAreThePool | src/lib/api/research.ts:245-264 | The result's sources are always the pool with at most `used` changed, or none when the outer handler ran. |
| Research.WebFailureIsolated | src/lib/api/research.ts:78-81 | A failed web search is noted, and the pool still holds the AI-search results followed by the custom sources. |
| Research.CustomWarningNoted | src/lib/api/research.ts:31-34 | A custom batch error is the first error noted, behind the `Custom sources warning: ` prefix. |
| Research.AnswerIsFormatted | src/lib/api/research.ts:245-250 | Unless the outer handler ran, the answer went through the markdown formatter and has no display controls. |
| Legacy.AiSources | research-app/src/lib/api/research.ts:34-44 | One source per AI-search result, in order, each tagged `perplexity` and scored 0.9. |
| Legacy.WebSources | research-app/src/lib/api/research.ts:47-57 | One source per organic result, in order, the one at index `i` scored 0.9 - 0.05·i (in hundredths). |
| Legacy.WebScoresDecrease | research-app/src/lib/api/research.ts:54 | Earlier organic results score strictly higher, and none scores above an AI-search result. |
| Legacy.FirstWithUrl | research-app/src/lib/api/research.ts:211-218 | A source with a given URL is found exactly when the URL occurs, and it is the first source carrying that URL. |
| Legacy.FirstByUrl | research-app/src/lib/api/research.ts:211-218 | Exactly the non-empty URLs survive, each once, carried by the first source that had it, and every kept source comes from the input. |
| Legacy.FirstByUrlOrder | research-app/src/lib/api/research.ts:211-218 | Kept sources stay in input order: of two kept sources, the earlier one stands earlier in the input. |
| Legacy.InsertDescUrls | research-app/src/lib/api/research.ts:221-223 | Inserting a source with a new URL keeps the URLs distinct and adds exactly that URL. |
| Legacy.SortDescUrls | research-app/src/lib/api/research.ts:221-223 | Sorting keeps the URLs distinct and the same. |
| Legacy.FilterAndSortOrder | research-app/src/lib/api/research.ts:209-224 | At most ten sources, in non-increasing score order, a prefix of the deduplicated sources sorted stably, so equal scores keep their input order. |
| Legacy.FilterAndSortMembers | research-app/src/lib/api/research.ts:209-224 | Every kept source comes from the input and has a non-empty URL, and no two share a URL. |
| Legacy.FilterAndSortSources | research-app/src/lib/api/research.ts:209-224 | The filter with its set of seen URLs, the sort and the cap return exactly `FilterAndSort`. |
| Legacy.MergedWithUrl | research-app/src/lib/api/research.ts:30-68 | A merged source with a URL is an AI-search or organic result and scores at most 0.9. |
| Legacy.GraphEntryDropped | research-app/src/lib/api/research.ts:59-85 | The knowledge-graph entry, having no URL, never survives filtering. |
| Legacy.Words | research-app/src/lib/api/research.ts:156-159 | Splitting always yields at least one piece, and no piece holds whitespace. |
| Legacy.WordsOfSpaceless | research-app/src/lib/api/research.ts:156-159 | A string without whitespace splits into itself alone. |
| Legacy.WordsCons | research-app/src/lib/api/research.ts:156-159 | A maximal whitespace run cuts off the word before it and splitting goes on after the run; a leading run gives an empty first piece. With WordsOfSpaceless this fixes the pieces of every input as its whitespace-separated runs, in order. |
| Legacy.Bump | research-app/src/lib/api/research.ts:165-174 | An existing key keeps its row and place; a new key is appended as the last row. |
| Legacy.BumpCount | research-app/src/lib/api/research.ts:165-174 | Bumping a key adds one to its count and leaves every other count alone. |
| Legacy.TallyCounts | research-app/src/lib/api/research.ts:160-176 | The table counts every key exactly as often as it occurs. |
| Legacy.TallyTerms | research-app/src/lib/api/research.ts:160-176 | Every key has exactly one row, and only keys have rows. |
| Legacy.TallyRow | research-app/src/lib/api/research.ts:160-176 | Each row of the table is a key with its number of occurrences. |
| Legacy.LongWords | research-app/src/lib/api/research.ts:164 | Exactly the words longer than three characters that are not query words are counted: every one of them is kept and nothing else. |
| Legacy.LongWordsConcat | research-app/src/lib/api/research.ts:163-167 | The long words of a concatenation are those of each part in order, so each occurrence is counted once, in place. |
| Legacy.PairsAdjacent | research-app/src/lib/api/research.ts:170-176 | Every phrase counted is two adjacent words, both longer than three characters, joined by one space. |
| Legacy.KeyTermsCorrect | research-app/src/lib/api/research.ts:153-185 | At most ten terms, in non-increasing frequency, each the capitalised term of a row that is a long non-query word or an adjacent pair of long words, counted exactly. |
| Legacy.CountWords | research-app/src/lib/api/research.ts:163-167 | The `forEach` fills exactly the tally of the long non-query words. |
| Legacy.CountPhrases | research-app/src/lib/api/research.ts:170-176 | The `for` loop fills exactly the tally of adjacent pairs of long words. |
| Legacy.ExtractKeyTerms | research-app/src/lib/api/research.ts:153-185 | The loops and the ranking return exactly `KeyTerms`. |
| Legacy.FirstSentence | research-app/src/lib/api/research.ts:197 | The sentence exists exactly when the text has a terminator, and it is the prefix up to and including the first one. |
| Legacy.TrimSentence | research-app/src/lib/api/research.ts:199 | Trimming a sentence leaves a sentence. |
| Legacy.ConcisePoint | research-app/src/lib/api/research.ts:190-204 | A snippet under 120 characters keeps its text with the first character upper-cased; a longer one gives its first sentence, trimmed, when that is longer than 20 characters, and otherwise its first 100 characters, trimmed, followed by `...`. |
| Legacy.Bullets | research-app/src/lib/api/research.ts:126-132 | The findings are empty exactly when no top source has a snippet. |
| Legacy.BulletsConcat | research-app/src/lib/api/research.ts:126-132 | The findings of a concatenation are those of each part, in source order. |
| Legacy.BulletsOne | research-app/src/lib/api/research.ts:127-131 | A source contributes `- ` + its concise point + a line break when it has a snippet, and nothing otherwise. |
| Legacy.Concepts | research-app/src/lib/api/research.ts:135-140 | The concepts section is present exactly when there is a key term: its heading followed by the lines of the first five terms. |
| Legacy.TermLinesConcat | research-app/src/lib/api/research.ts:137-139 | The term lines of a concatenation are those of each part, in order. |
| Legacy.TermLinesOne | research-app/src/lib/api/research.ts:138 | One term gives the single line `- term`. |
| Legacy.NonEmpty | research-app/src/lib/api/research.ts:109-110 | Exactly the non-empty strings are kept. |
| Legacy.NonEmptyConcat | research-app/src/lib/api/research.ts:109-110 | The kept strings of a concatenation are those of each part, in order and with their repeats. |
| Legacy.SummaryNonEmpty | research-app/src/lib/api/research.ts:103-148 | The summary is never empty. |
| Legacy.SummaryFrame | research-app/src/lib/api/research.ts:116-147 | With sources, the summary starts with the opening and the bullets of the first five sources, and ends with the closing. |
| Legacy.SummaryConcepts | research-app/src/lib/api/research.ts:116-147 | With sources, the summary is exactly the opening, the findings, the key-concepts section and the closing, in that order. |
| Legacy.FindingsPresent | research-app/src/lib/api/research.ts:125-132 | The findings have a bullet exactly when one of the first five sources has a snippet. |
| Legacy.AppendFindings | research-app/src/lib/api/research.ts:126-132 | The `forEach` appends exactly the bullets. |
| Legacy.AppendTerms | research-app/src/lib/api/research.ts:137-139 | The `forEach` appends exactly one line per shown term. |
| Legacy.GenerateSummary | research-app/src/lib/api/research.ts:103-148 | The summary built with `+=` is exactly `SummaryText`. |
| Legacy.ResearchFailure | research-app/src/lib/api/research.ts:22-28 | The research fails, with status 500 and the fixed message, exactly when both adapters failed. |
| Legacy.ResearchSources | research-app/src/lib/api/research.ts:84-92 | A result holds at most ten sources with distinct non-empty URLs, in non-increasing score order, none of them the knowledge-graph entry. |
| Legacy.AnswerPrecedence | research-app/src/lib/api/research.ts:70-82 | A non-empty AI-search answer wins, then a non-empty answer box, then the summary; the answer is never empty. |
| Legacy.ConductResearch | research-app/src/lib/api/research.ts:8-97 | Pushing the parts, choosing the answer and filtering return exactly `ResearchOf`. |
| UrlManager.RejectionCases | src/components/CustomUrlManager.tsx:52-70 | Each refusal happens exactly when its check is the first to fail, in the order blank, not http(s), already listed, fifteen reached; otherwise the URL is admitted. |
| UrlManager.Admit | src/components/CustomUrlManager.tsx:62-72 | An admitted URL keeps the list at most fifteen long and free of repeats. |
| UrlManager.AdmitTwice | src/components/CustomUrlManager.tsx:62-65 | Adding the same URL a second time is refused as already listed. |
| UrlManager.Without | src/components/CustomUrlManager.tsx:80 | Filtering removes every copy of the URL and keeps every other entry as often as it was. |
| UrlManager.WithoutConcat | src/components/CustomUrlManager.tsx:80 | The filter keeps the order: it distributes over concatenation. |
| UrlManager.WithoutShorter | src/components/CustomUrlManager.tsx:80 | Removing a listed URL shortens the list. |
| UrlManager.WithoutDistinct | src/components/CustomUrlManager.tsx:80 | Filtering a list without repeats leaves a list without repeats. |
| UrlManager.RemoveReadmits | src/components/CustomUrlManager.tsx:62-83 | A removed URL can be added again. |
| UrlManager.CustomUrlManager.constructor | src/components/CustomUrlManager.tsx:9-11 | The editor starts with no URLs, empty input and no error. |
| UrlManager.CustomUrlManager.SetInput | src/components/CustomUrlManager.tsx:120 | Typing changes only the input text. |
| UrlManager.CustomUrlManager.AddUrl | src/components/CustomUrlManager.tsx:49-76 | The error is that of the first failed check; a refusal changes nothing else, and an admission appends the text as typed, clears the input and announces the new list; the list stays at most fifteen long without repeats. |
| UrlManager.CustomUrlManager.RemoveUrl | src/components/CustomUrlManager.tsx:79-83 | Every copy of the URL goes, the rest keep their order, and the new list is announced. |
| UrlManager.CustomUrlManager.ClearAllUrls | src/components/CustomUrlManager.tsx:86-89 | The list is emptied and the empty list announced. |
| ResultsPanel.UsedOnly | src/components/ResearchResults.tsx:425 | Exactly the used sources are kept (membership both ways), never more of them than the input has. |
| ResultsPanel.UsedOnlyConcat | src/components/ResearchResults.tsx:425 | Keeping the used sources distributes over concatenation, so the order and the repeats of the input are kept, as `filter` does. |
| ResultsPanel.OfTag | src/components/ResearchResults.tsx:436-438 | Exactly the sources of the given type are kept. |
| ResultsPanel.BaseSources | src/components/ResearchResults.tsx:425-426 | With "show all" every source is listed; otherwise exactly `UsedOnly` of the sources, in their order. |
| ResultsPanel.DisplaySources | src/components/ResearchResults.tsx:429-431 | The filter "all" lists the base sources; any other lists exactly `OfTag` of the base sources for its type, in their order. |
| ResultsPanel.CountsOf | src/components/ResearchResults.tsx:434-439 | The total is the number of base sources, and each per-type count is the length of that type's filtered list. |
| ResultsPanel.TypesPartition | src/components/ResearchResults.tsx:436-438 | The three per-type lists together are no longer than the list. |
| ResultsPanel.ShownPercent | src/components/ResearchResults.tsx:442-798 | The shown percentage is `Research.Percent(count, all)`, which Research.PercentRounds proves is `Math.round(100 · count / all)`, for a present type, and 0 for an absent one; it lies between 0 and 100, and is 100 when every base source has the type. |
| ResultsPanel.VerdictOf | src/components/ResearchResults.tsx:457-763 | The badge is "balanced" exactly when every type holds at least a fifth, "missing" exactly when a type is absent, and "needs better balance" otherwise. |
| ResultsPanel.MissingNames | src/components/ResearchResults.tsx:449-807 | The warning names no type exactly when all three types are present. |
| ResultsPanel.WarningNamesAbsentCustom | src/components/ResearchResults.tsx:449-807 | Without custom sources in the result and without AI-search sources, the warning still names custom sources as missing. |
| ResultsPanel.UnusedCustomMeansMissing | src/components/ResearchResults.tsx:425-457 | A custom source that was never used makes the used-only view report missing source types. |
| ResultsPanel.NoneUsedOfTag | src/components/ResearchResults.tsx:425-438 | When no source of a type is used, the used sources hold none of that type. |
| ResultsPanel.OfTagConcat | src/components/ResearchResults.tsx:436-438 | Filtering by type distributes over concatenation. |
| ResultsPanel.EvenSplitBalanced | src/components/ResearchResults.tsx:442-461 | Equal AI-search and web counts, without custom sources, are balanced and shown as 50%. |
| ResultsPanel.RoundedShareMisleads | src/components/ResearchResults.tsx:459-776 | A share shown as 20% after rounding can still fail the 20% balance test. |
| ResultsPanel.HeadingLineKeepsHashes | src/components/ResearchResults.tsx:23-25 | The heading fix keeps the line's hashes. |
| ResultsPanel.HeadingLineKeepsTitle | src/components/ResearchResults.tsx:23-25 | The heading fix keeps the title after the hashes, up to leading whitespace. |
| ResultsPanel.HeadingWithText | src/components/ResearchResults.tsx:23-25 | A heading with text gets exactly one space between its hashes and its title. |
| ResultsPanel.HeadingLineIdempotent | src/components/ResearchResults.tsx:23-25 | Fixing a heading line twice is the same as once. |
| ResultsPanel.ListLine | src/components/ResearchResults.tsx:41 | After the indentation, a `-` or `*` followed by whitespace keeps its indentation and mark, gets exactly one space, and keeps the rest of the line; any other line is unchanged. |
| ResultsPanel.ListLineIdempotent | src/components/ResearchResults.tsx:41 | Fixing a list line twice is the same as once. |
| ResultsPanel.Headings | src/components/ResearchResults.tsx:28 | At most one heading per line. |
| ResultsPanel.HeadingsConcat | src/components/ResearchResults.tsx:28 | The headings of two blocks of lines are the headings of the first followed by those of the second, so they keep the order of the lines. |
| ResultsPanel.HeadingsOne | src/components/ResearchResults.tsx:28 | A single line gives one heading, its trimmed text after `##`, exactly when it is a `##` heading line, and none otherwise. |
| ResultsPanel.DashRuns | src/components/ResearchResults.tsx:33 | The result has no whitespace; each character is a dash or comes from the input. |
| ResultsPanel.DashRunsKeep | src/components/ResearchResults.tsx:33 | A character that is not whitespace is kept in front of the rest. |
| ResultsPanel.DashRunsRun | src/components/ResearchResults.tsx:33 | A whole run of whitespace becomes exactly one `-`. |
| ResultsPanel.Anchor | src/components/ResearchResults.tsx:33 | An anchor holds only lower-case word characters and dashes; it is the heading lower-cased, with the characters outside `[\w\s-]` removed and every whitespace run turned into one `-`. |
| ResultsPanel.TocEntryListed | src/components/ResearchResults.tsx:34-41 | A contents entry is already a well-formed list line. |
| ResultsPanel.TocLines | src/components/ResearchResults.tsx:30-35 | The contents are the heading line followed by one entry per heading, in order. |
| ResultsPanel.NoTocBelowThree | src/components/ResearchResults.tsx:21-44 | With fewer than three `##` headings, the output is just each line with the heading and list fixes. |
| ResultsPanel.TocFromThree | src/components/ResearchResults.tsx:21-44 | With three or more, the contents come first, then a blank line, then every fixed line. |
| ResultsPanel.MarkerEnd | src/components/ResearchResults.tsx:358 | The matched marker is at least 11 characters and inside the text; it ends right after `used`, or one past the `:` when one follows. |
| ResultsPanel.FindMarker | src/components/ResearchResults.tsx:358 | The first line-start position at or after `from` where the case-insensitive marker matches, or none. |
| ResultsPanel.FirstCut | src/components/ResearchResults.tsx:358-360 | A split exists exactly when the marker occurs; the first piece ends at the first marker, and the second runs from its end to the next marker or the end. |
| ResultsPanel.MainContent | src/components/ResearchResults.tsx:358-359 | The main content is the prefix before the first marker; it is shorter than the answer exactly when a marker occurs. |
| ResultsPanel.SourcesSection | src/components/ResearchResults.tsx:360 | There is no section exactly when the main content is the whole answer. |
| ResultsPanel.SplitPieces | src/components/ResearchResults.tsx:358-360 | The answer is the main content, the marker, the section and the rest, in that order. |
| ResultsPanel.FindBreak | src/components/ResearchResults.tsx:373 | The first paragraph break at or after `from`, or none. |
| ResultsPanel.Paragraphs | src/components/ResearchResults.tsx:373 | There is always at least one paragraph and none holds a break; text without a break is one paragraph, and otherwise the first paragraph is the text before the first break. |
| ResultsPanel.ParagraphsRejoin | src/components/ResearchResults.tsx:373-395 | For text without three line breaks in a row, joining the paragraphs with a blank line gives the text back. |
| ResultsPanel.LinkLength | src/components/ResearchResults.tsx:376 | A link match is at least six characters, starting with `[` and ending with `)`. |
| ResultsPanel.LinkLengthExact | src/components/ResearchResults.tsx:376 | A link is matched at the start exactly when `[text](target)` with non-empty text and target fits there, and the match is that whole link. |
| ResultsPanel.LinkShapeRuns | src/components/ResearchResults.tsx:376 | A link at the start has its text running to the first `]` and its target to the first `)` after it, so the match is unique. |
| ResultsPanel.Links | src/components/ResearchResults.tsx:376 | Every link found starts with `[` and ends with `)`. |
| ResultsPanel.FirstParenthesised | src/components/ResearchResults.tsx:381-383 | The URL read from a link is non-empty and holds no `)`. |
| ResultsPanel.FirstParenthesisedLeftmost | src/components/ResearchResults.tsx:381-383 | Nothing is read exactly when no `(...)` group occurs; otherwise the text of the leftmost group is read. |
| ResultsPanel.GroupAtShift | src/components/ResearchResults.tsx:381-383 | Dropping the first character moves every group, and its text, one place to the left. |
| ResultsPanel.LinkTarget | src/components/ResearchResults.tsx:376-384 | A plain link `[text](target)` is found whole, and its target is the URL read from it. |
| ResultsPanel.WholeLink | src/components/ResearchResults.tsx:376 | A plain link is matched to its full length. |
| ResultsPanel.ParenthesisInTextWins | src/components/ResearchResults.tsx:381-383 | The first parenthesis wins: `[a (b)](c)` is read as pointing to `b`. |
| ResultsPanel.Highlight | src/components/ResearchResults.tsx:389 | The highlight is the opening `div` naming the view, then the paragraph unchanged, then the closing `div`. |
| ResultsPanel.HighlightParagraphs | src/components/ResearchResults.tsx:374-393 | One paragraph per paragraph; a paragraph is wrapped exactly when one of its links points to a source of the view's type, and is otherwise unchanged. |
| ResultsPanel.FilteredContent | src/components/ResearchResults.tsx:352-396 | The integrated view shows the answer as it is; a source view is the highlighted paragraphs of the main content joined by blank lines, followed directly by the sources header and section when the section is non-empty, with nothing between or overlapping. |
| ResultsPanel.NothingCitedUnchanged | src/components/ResearchResults.tsx:352-396 | When no source of the view's type has a URL and there is no marker, the source view shows the answer unchanged. |
| ResultsPanel.LineAt | src/components/ResearchResults.tsx:326 | The line from a position is the text up to the next line break or the end, and holds no line break. |
| ResultsPanel.ShortSnippet | src/components/ResearchResults.tsx:337-339 | A snippet up to 200 characters is kept; a longer one gives its first 200 characters and `...`. |
| ResultsPanel.UsedPerplexity | src/components/ResearchResults.tsx:327 | Exactly the used AI-search sources. |
| ResultsPanel.UsedPerplexityConcat | src/components/ResearchResults.tsx:327 | The selection distributes over concatenation, so the used AI-search sources keep their order and the first three are the first three in the list. |
| ResultsPanel.Bullet | src/components/ResearchResults.tsx:336-342 | A source without a snippet gives no bullet; otherwise the bullet is `- `, the short snippet, its 1-based number, the title or `Source`, and the URL or `#`, closing the paragraph. |
| ResultsPanel.Bullets | src/components/ResearchResults.tsx:335-343 | One bullet per top source, numbered by position. |
| ResultsPanel.Insights | src/components/ResearchResults.tsx:326-348 | Insights are produced exactly when some AI-search source is used and the answer has no heading mentioning Perplexity, and they start with their own heading. |
| ResultsPanel.EnhancedAnswer | src/components/ResearchResults.tsx:399-409 | The integrated view is the answer, with the insights put in front when there are any and the answer has no strict Perplexity heading; a source view is always the filtered content. |
| ResultsPanel.InsightsPrepended | src/components/ResearchResults.tsx:399-406 | Produced insights are put in front of the answer in the integrated view. |
| ResultsPanel.InsightsNotRepeated | src/components/ResearchResults.tsx:326-404 | The insights' own heading mentions Perplexity, so the enhanced answer would not get insights again. |
| ResultsPanel.HeaderIsHeading | src/components/ResearchResults.tsx:332 | The insights heading is a heading that mentions Perplexity. |
| ResultsPanel.ViewFor | src/components/ResearchResults.tsx:607-675 | Each focus button picks the view of the same source type as its filter. |
| ResultsPanel.BuildInsights | src/components/ResearchResults.tsx:332-343 | The `forEach` appends exactly the bullets of the top sources to the heading. |
| ResultsPanel.InsightsWhenDue | src/components/ResearchResults.tsx:330-345 | When due, the insights are the heading followed by the bullets of the first three used AI-search sources, the j-th bullet numbered j+1, and no more than three of them. |
| ResultsPanel.Panel.constructor | src/components/ResearchResults.tsx:294-300 | The panel starts with used sources only, the filter "all", the integrated view and no insights. |
| ResultsPanel.Panel.ToggleShowAll | src/components/ResearchResults.tsx:694 | The toggle flips "show all" and changes nothing else. |
| ResultsPanel.Panel.SelectTypeFilter | src/components/ResearchResults.tsx:704-748 | A filter tab sets the filter and changes nothing else. |
| ResultsPanel.Panel.SelectView | src/components/ResearchResults.tsx:507-560 | A view tab sets the view and changes nothing else. |
| ResultsPanel.Panel.Focus | src/components/ResearchResults.tsx:607-675 | A focus button sets the filter and the matching view; the list then holds exactly the base sources of that type. |
| ResultsPanel.Panel.RefreshInsights | src/components/ResearchResults.tsx:303-349 | An empty answer leaves the insights alone; otherwise they become `Insights` of the answer and sources. |
| Url.Parse | src/lib/api/customSources.ts:157-158 | Input without a leading scheme fails to parse; a parsed URL's protocol is the input's scheme lower-cased followed by `:`; an `http:` or `https:` URL has a non-empty host and a path starting with `/`. |

Some members of ResultsPanel only compute a value, so their properties are stated in the lemmas that cite the same lines rather than in rows of their own:
- `ResultsPanel.FormatSections` is `addSectionFormatting` (src/components/ResearchResults.tsx:21-52), through `ResultsPanel.SectionLines` and `ResultsPanel.FormatHeadingLine`. Their behaviour is stated by the HeadingLine*, ListLine*, Headings*, TocLines, NoTocBelowThree and TocFromThree rows.
- `ResultsPanel.LooseHeadingAt` and `ResultsPanel.StrictHeadingAt` are the two Perplexity-heading patterns (lines 326 and 404). They are used by Insights, InsightsNotRepeated, EnhancedAnswer and HeaderIsHeading.
- `ResultsPanel.HeaderBadge` and `ResultsPanel.PanelBadge` are the badge texts (lines 476-477 and 762-763), chosen by the verdict that VerdictOf states.

## Left out

- Network calls, the language model, JSDOM, Readability and `JSON.parse` are not code here: what they return is an input (`Fetched`, `Page`, `SearchReply`, `ChatReply`, `CompletionReply`, `Env`). Request bodies, headers, prompt wording and system prompts are not modelled.
- Concurrency: `Promise.all` and `Promise.allSettled` are modelled as a left-to-right sequence of outcomes. The model does not capture interleaving or timing.
- Logging, the clock and the environment keys are not modelled as effects. The clock's reading is a parameter, and each key is a flag saying whether it is set. `Research.ResearchOf` also returns the error list that `research` collects and never reads, so that lemmas can state which failures were noted.
- `fetchFromPerplexity` (`src/lib/api/perplexity.ts:12-79`) is not modelled, because the pipeline never calls it. Neither is the `fetchFromOpenAI` placeholder (`src/lib/api/openai.ts:275-281`), which returns a fixed notice and is never called.
- Markdown.CleanHtmlFromPerplexity: the tag-specific rewrites (`src/lib/api/research.ts:280-306`: lists, headings, paragraphs, tables, emphasis, code and links) are not modelled. Nor is the rule of line 307, which maps some tags to a space; a `<` that does not start a tag makes it differ from the catch-all rule (`a < b<div>c` becomes `a < b c` there, but `a c` under the catch-all rule). The model starts at the catch-all tag rule, so it matches the code only on text without those tags.
- Markdown.CleanHtmlFromPerplexity: the numeric-entity rule (`src/lib/api/research.ts:319`) is not modelled, because `String.fromCharCode` yields UTF-16 code units, lone surrogates included, which `char` cannot hold.
- Markdown.EnsureProperMarkdownFormatting: the per-line heading, list, paragraph, blockquote and table rules (`src/lib/api/research.ts:366-385`) are not modelled. On cleaned text every line break sits in a `\n\n` pair between sentence punctuation and an upper-case letter (`Markdown.CleanHtmlFromPerplexityBreaks`), so those rules find nothing to change. That argument is informal; no lemma proves it.
- Case-insensitive patterns and `toUpperCase`/`toLowerCase` are modelled on ASCII letters only. Lengths count `char`s rather than UTF-16 code units.
- Relevance scores are integers in hundredths, and percentages are computed exactly with `Math.round`'s half-up rule. Floating-point error is not modelled: with 23 of 40 sources the code computes `23 / 40 * 100` as 57.49999… and shows 57, where the model shows 58.
- Legacy.KeyTerms: frequency tables list their rows in insertion order. The model leaves out `Object.entries` listing integer-like keys first, and words such as `constructor` that collide with prototype properties.
- Seqs.SortDesc: `Array.prototype.sort` is modelled as a stable sort. The language only requires stability since ES2019.
- CustomSources.ProcessBatch requires a positive batch size. With 0 the source loop never advances. The function is never called.
- CustomSources.MainContent and CustomSources.AllText take what the container selectors and DOM traversal found as input. The regular expressions and queries that find them are not modelled.
- Url.Parse handles the scheme, host and path split of absolute URLs, refuses a port that is not a number up to 65535 and drops credentials before the last `@`. It does not implement the full WHATWG URL parser: percent-encoding, IDNA, IPv6 and IPv4 host forms and relative references are left out.
- Url.Parse: the contract ties the protocol to the input, but states the host and path only by their shape (non-empty host and `/`-rooted path for `http:` and `https:`), not as the pieces of the input they come from.
- CustomSources.StructuredStep: a truthy JSON-LD `headline`, `name` or `articleBody` that is not a string makes the code's `.trim()` throw, so the structured-data strategy fails; the model only knows string fields and skips anything else.
- ResultsPanel.FormatHeadingLine: the code's `/^(#+)\s+(.+)$/gm` lets `\s` match a line break, so `#` alone on a line followed by `foo` becomes `# foo` on one line; the model works line by line and leaves that pair unchanged.
- ResultsPanel.ListLine: the code's `/^(\s*[-*])\s+/gm` lets `\s` match a line break, so `-` alone on a line followed by `foo` becomes `- foo`; the model works line by line and leaves a lone marker as it is.
- ResultsPanel.Headings: the code's `/^##\s+(.+)$/gm` also counts `##` alone on a line followed by a non-empty line as a heading, with that next line as its text; the model counts only `##` headings with text on the same line.
- ResultsPanel.SectionLines: it rests on the line-by-line heading, list and heading-count rules, so on text with a marker-only line followed by a line break it differs as the three lines above say.
- ResultsPanel.NoTocBelowThree: stated for the line-by-line model, so it differs from the code in the marker-only-line cases above.
- ResultsPanel.TocFromThree: stated for the line-by-line model, so it differs from the code in the marker-only-line cases above.
- ResultsPanel.Links: the contract states the shape of every link found; it does not state that every link of the paragraph is found, in order (each single match is characterised by `ResultsPanel.LinkLengthExact`).
- Line-oriented patterns treat `\r`, U+2028 and U+2029 as ordinary characters. JavaScript's `.` and `^`/`$` with `m` also treat them as line ends.
- `localStorage` loading and saving in `src/components/CustomUrlManager.tsx:16-36` is not modelled, nor are the expand toggle and the disabled state. Persistence is an effect of the browser.
- React rendering is not modelled. Nor are the notice wrapping (`src/components/ResearchResults.tsx:55-56`), the citation components and styling. The `sourceSections` state (`src/components/ResearchResults.tsx:307-323`) is computed but never read, so it is left out.
