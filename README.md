# artw_stylekit core, modelled in Dafny

artw_stylekit helps write Turkish art-history articles. It has five core parts:

- **Style profiler** (`StyleProfiler`). It reads a corpus of texts and computes a style profile:
  - the document count and average document length;
  - vocabulary statistics: token counts, the 50 most common words, lexical diversity;
  - sentence statistics: average and median sentence length, sentence count;
  - counts of three citation patterns;
  - the recurring capitalised terms.
- **Prompt templates** (`PromptTemplates`). They render a system preamble from a profile and put it in front of three prompts: an article outline, a section, and a reference list.
- **APA-7 citation checker** (`APAValidator`). It extracts `(Author, Year)` pairs and checks that visual captions are present.
- **DOCX builder** (`DocxBuilder`). It turns an article outline into a sequence of headings, paragraphs and page breaks.
- **Fence stripper** in `clean_json.py`. It removes a Markdown code fence from a generated JSON answer.

## Modules

| module | file | models |
|---|---|---|
| `Wrappers` | wrappers.dfy | `Option` and `Result` |
| `Chars` | chars.dfy | the regex character classes; the Unicode-dependent `\w`, `\s`, `\d` and `str.lower` are the parameter `CharRules`, and `Basic` is one concrete instance |
| `Strings` | strings.dfy | `str.strip`, `str.split()`, `", ".join`, list slicing `[:n]`, `str()` of an `int` |
| `Counting` | counting.dfy | `collections.Counter`, `most_common(n)` (a stable sort by count), `sorted` on ints |
| `Json` | json.dfy | the JSON value a profile is written as and read back from, and dictionary lookup |
| `Regex` | regex.dfy | each regular expression as a matcher at one position; `re.findall` as a leftmost non-overlapping scan |
| `StyleProfile` | style_profile.dfy | the profiler: the class with its `texts` list and the profile it computes |
| `CitationChecker` | citation_checker.dfy | the citation checker |
| `PromptTemplates` | templates.dfy | the four templates and the three prompt builders |
| `Document` | document.dfy | the document as a list of blocks, with views of its headings, paragraph texts and page breaks |
| `DocxBuilder` | docx_builder.dfy | the builder: a class whose `doc` field its methods append to |
| `CleanJson` | clean_json.dfy | the fence stripper |
| `Scenarios`, `CitationExamples` | scenarios.dfy, citation_examples.dfy | worked examples on concrete texts |

The regular expressions are hand-written, deterministic matchers. Each one takes every greedy repetition to its longest run. This gives the same result as Python's backtracking engine when the character classes keep the separations `Chars.Apart` lists: in every pattern, the character that must follow a run can then never belong to that run. Python's own `\s`, `\d` and `\w` keep them, and `Chars.BasicApart` proves that the concrete classes `Basic` of the model do.

In these places the code does something other than a reader of its names and comments might expect, and the model follows the code:

- **Paged citations.** The checker's pattern (artw/analysis/citation_checker.py:11) accepts an optional `, s. Page` group before `)`. The profile's `in_text` pattern (artw/analysis/style_profile.py:70) has no such group and needs `)` right after the year. So the checker extracts `(Aydın ve Demir, 2021, s. 45)` but the profile does not count it as an in-text citation.
  - `CitationExamples.AydinDemirCounted` proves this for the sentence `(Aydın, 2020) ve (Aydın ve Demir, 2021, s. 45)`. The checker extracts `("Aydın", "2020")` and `("Aydın ve Demir", "2021")`. The profile counts one in-text citation, no `et al.` and one page reference.
  - `CitationExamples.PagedCitationCounted` proves the same split for every citation laid out as `(Author, Year, s. Page)` with single blanks and a page of digits, where the author is one name or two names joined by `ve`, `and` or `&`.
  - `CitationExamples.PagedCounted` proves it for any text that is one citation the checker's pattern matches with a page group, whatever its blanks or page range.
- **Average document length.** `int()` truncates it toward zero; it is not rounded.
- **Missing profile keys.** Only `avg_doc_length` falls back to a default (4000). Every other missing key raises `KeyError`, and the model returns that error.
- **Median.** `sorted(lengths)[len(lengths)//2]` picks the upper middle element for an even count, e.g. 3 for `[1, 2, 3, 4]`. It is not the lower middle one.

## Model

| member | source | states |
|---|---|---|
| StyleProfile.StyleProfiler.constructor | artw/analysis/style_profile.py:13-14 | a new profiler holds no texts |
| StyleProfile.LoadedTexts | artw/analysis/style_profile.py:19-21 | the texts loaded are the `text` fields of the records up to the first record without one, in order |
| StyleProfile.StyleProfiler.LoadCorpus | artw/analysis/style_profile.py:16-22 | appends the loaded texts to `texts`; fails exactly when some record has no `text`, keeping the texts appended before it |
| StyleProfile.StyleProfiler.Analyze | artw/analysis/style_profile.py:24-34 | the profile is `ProfileOf(texts)`: count, average length, vocabulary, sentences, citations and terminology of the current texts |
| StyleProfile.ProfileOf | artw/analysis/style_profile.py:24-34 | the profile of a corpus; what each field holds is stated by DocumentStats, VocabularyBounds, SentenceCounts, AverageIsMean, MedianRank, CitationCounts and TerminologyFacts |
| StyleProfile.DocumentStats | artw/analysis/style_profile.py:27-28 | document_count is the number of texts; avg_doc_length is the int 0 exactly for an empty corpus, and otherwise the mean number of `split()` words per text |
| StyleProfile.RatioMean | artw/analysis/style_profile.py:28 | a guarded quotient times its divisor gives back the dividend |
| StyleProfile.Ratio | artw/analysis/style_profile.py:49 | `a / b if b else 0`: the int 0 exactly when the divisor is 0, otherwise a float whose product with the divisor is the dividend |
| StyleProfile.TotalWordsAppend | artw/analysis/style_profile.py:28 | the word total of two corpora is the sum of their totals |
| StyleProfile.TotalWords | artw/analysis/style_profile.py:28 | `sum(len(t.split()) for t in self.texts)`; TotalWordsAppend states that it adds up over concatenated corpora, DocumentStats that the average is it over the number of texts |
| StyleProfile.EmptyCorpus | artw/analysis/style_profile.py:26-33 | an empty corpus gives zero counts, empty lists and the int 0 for every guarded quotient, without an error |
| StyleProfile.StyleProfiler.AnalyzeVocabulary | artw/analysis/style_profile.py:36-50 | the loop gathers the tokens of every text in order; the result is the vocabulary of that word list |
| StyleProfile.AllWords | artw/analysis/style_profile.py:38-41 | the tokens of every text, text after text; AnalyzeVocabulary proves the `extend` loop builds it, TokensAreWords states what each token is |
| StyleProfile.TokensAreWords | artw/analysis/style_profile.py:40 | every token is a non-empty run of word characters of the lower-cased text |
| StyleProfile.Tokens | artw/analysis/style_profile.py:40 | the words of one text; TokensAreWords states that each is a non-empty run of word characters of the lower-cased text |
| StyleProfile.VocabularyOf | artw/analysis/style_profile.py:45-50 | the vocabulary dictionary; VocabularyBounds and the MostCommon lemmas state its four fields |
| StyleProfile.VocabularyBounds | artw/analysis/style_profile.py:43-49 | total = number of tokens, unique = distinct tokens <= total, diversity in [0, 1], 0 exactly without tokens, 1 exactly when no token repeats |
| StyleProfile.RatioOfAtMost | artw/analysis/style_profile.py:49 | a quotient of 0 < a <= b lies in (0, 1] and is 1 exactly when a = b |
| StyleProfile.RatioAtLeastOne | artw/analysis/style_profile.py:62 | a quotient of a >= b > 0 is at least 1 |
| Counting.Counter | artw/analysis/style_profile.py:43 | one entry per distinct item, in first-seen order, with its number of occurrences |
| Counting.Distinct | artw/analysis/style_profile.py:47 | the distinct items: every item occurs, none repeats, no more than the input |
| Counting.DistinctAllUnique | artw/analysis/style_profile.py:47-49 | as many distinct items as items exactly when no item repeats |
| Counting.CountPositive | artw/analysis/style_profile.py:43 | an item is counted exactly when it occurs |
| Counting.CounterEntries | artw/analysis/style_profile.py:43 | every counter entry is an occurring item with its number of occurrences, and no entry repeats |
| Counting.CountAppend | artw/analysis/style_profile.py:41-43 | counts over `extend`ed lists add up |
| Counting.InsertByCountSorted | artw/analysis/style_profile.py:48 | inserting by count into a non-increasing list keeps it non-increasing |
| Counting.InsertByCountPermutes | artw/analysis/style_profile.py:48 | inserting by count adds exactly the one entry |
| Counting.InsertByCountStable | artw/analysis/style_profile.py:48 | among entries of one count, the inserted entry comes first and the others keep their order |
| Counting.InsertByCount | artw/analysis/style_profile.py:48 | one step of the stable count sort inside `most_common`; InsertByCountSorted, InsertByCountPermutes and InsertByCountStable state its order, contents and stability |
| Counting.SortByCount | artw/analysis/style_profile.py:48 | the stable sort by decreasing count inside `most_common`; SortByCountFacts states that it is ordered, a permutation and stable |
| Counting.SortByCountFacts | artw/analysis/style_profile.py:48 | the count sort is non-increasing, a permutation, and keeps first-seen order among equal counts |
| Counting.MostCommonPrefix | artw/analysis/style_profile.py:48 | `most_common(n)` is the first min(n, distinct) entries of the sorted counter |
| Counting.MostCommonExact | artw/analysis/style_profile.py:48 | each entry's count is the item's number of occurrences |
| Counting.MostCommonUnique | artw/analysis/style_profile.py:48 | no item is listed twice |
| Counting.MostCommonOrdered | artw/analysis/style_profile.py:48 | entries are by non-increasing count, ties in first-seen order |
| Counting.MostCommonDominates | artw/analysis/style_profile.py:48 | an item left out means the list is full and the item is no more frequent than the last entry |
| Counting.MostCommonFacts | artw/analysis/style_profile.py:48 | all of the above about `most_common(n)` in one statement |
| Counting.MostCommon | artw/analysis/style_profile.py:48 | `most_common(n)`; MostCommonPrefix, MostCommonExact, MostCommonUnique, MostCommonOrdered and MostCommonDominates state what it lists |
| StyleProfile.StyleProfiler.AnalyzeSentences | artw/analysis/style_profile.py:52-65 | the loop gathers the sentences of every text in order; the result is the sentence structure of that list |
| StyleProfile.SplitTerminators | artw/analysis/style_profile.py:56 | `re.split(r'[.!?]+')` gives at least one piece and no piece holds a terminator |
| StyleProfile.SplitTerminatorsNone | artw/analysis/style_profile.py:56 | a text without terminators is one piece |
| StyleProfile.SplitTerminatorsAt | artw/analysis/style_profile.py:56 | the text splits at the first terminator run into the piece before it and the pieces of the rest |
| StyleProfile.StrippedPieces | artw/analysis/style_profile.py:57 | the kept pieces are stripped and non-empty: no blank at either end, no terminator |
| StyleProfile.AllSentences | artw/analysis/style_profile.py:54-57 | every sentence of the corpus is such a stripped, non-empty piece |
| StyleProfile.Sentences | artw/analysis/style_profile.py:56-57 | the sentences of one text; AllSentences states that each is a stripped, non-empty piece without a terminator |
| StyleProfile.Lengths | artw/analysis/style_profile.py:59 | one length per sentence |
| StyleProfile.SentenceHasWord | artw/analysis/style_profile.py:57-59 | a kept sentence has at least one word |
| StyleProfile.LengthsPositive | artw/analysis/style_profile.py:59 | every sentence length is at least 1 |
| StyleProfile.Sum | artw/analysis/style_profile.py:62 | `sum(lengths)`; SumAtLeastLength and AverageIsMean state its relation to the number of sentences and to the average |
| StyleProfile.SumAtLeastLength | artw/analysis/style_profile.py:59-62 | lengths of at least 1 each sum to at least their number |
| StyleProfile.SentenceCounts | artw/analysis/style_profile.py:59-64 | total_sentences is the number of sentences; the sum of the lengths is at least that number |
| StyleProfile.AverageIsMean | artw/analysis/style_profile.py:62 | the average is the int 0 exactly without sentences, and otherwise the sum of the lengths over their number |
| StyleProfile.AverageAtLeastOne | artw/analysis/style_profile.py:62 | with sentences, the average is at least one word |
| StyleProfile.AverageLength | artw/analysis/style_profile.py:62 | `sum(lengths) / len(lengths) if lengths else 0`; AverageIsMean and AverageAtLeastOne state its value and bound |
| StyleProfile.MedianRank | artw/analysis/style_profile.py:63 | the median is 0 without sentences; otherwise a length with at most n//2 lengths below it and at most n-1-n//2 above it |
| StyleProfile.Median | artw/analysis/style_profile.py:63 | `sorted(lengths)[len(lengths)//2]`, or 0; MedianRank states its rank and Scenarios.EvenMedian the upper middle for an even count |
| StyleProfile.SentenceStructureOf | artw/analysis/style_profile.py:61-64 | the sentence dictionary; AverageIsMean, MedianRank and SentenceCounts state its three fields |
| Counting.InsertAscendingSorted | artw/analysis/style_profile.py:63 | inserting into an ascending list keeps it ascending |
| Counting.InsertAscendingPermutes | artw/analysis/style_profile.py:63 | inserting adds exactly the one element |
| Counting.InsertAscendingCounts | artw/analysis/style_profile.py:63 | inserting adds one to the elements below or above a value exactly when the new one is |
| Counting.InsertAscending | artw/analysis/style_profile.py:63 | one insertion step of `sorted(lengths)`; InsertAscendingSorted, InsertAscendingPermutes and InsertAscendingCounts state its order, contents and ranks |
| Counting.SortAscendingSorted | artw/analysis/style_profile.py:63 | `sorted` gives an ascending list |
| Counting.SortAscendingPermutes | artw/analysis/style_profile.py:63 | `sorted` gives a permutation of its input |
| Counting.SortAscendingCounts | artw/analysis/style_profile.py:63 | `sorted` keeps the number of elements below and above any value |
| Counting.SortAscendingFacts | artw/analysis/style_profile.py:63 | `sorted` is ascending and a permutation, and keeps the number of elements below and above any value |
| Counting.SortAscending | artw/analysis/style_profile.py:63 | `sorted(lengths)`; SortAscendingFacts states that it is ascending, a permutation, and keeps the count below and above every value |
| Counting.AscendingRanks | artw/analysis/style_profile.py:63 | in an ascending list, at most p elements are below the one at index p and at most n-1-p above |
| StyleProfile.StyleProfiler.AnalyzeCitations | artw/analysis/style_profile.py:67-80 | the loop fills the counts in dictionary order, in_text, et_al, page_ref, each the total over all texts |
| StyleProfile.CitationCounts | artw/analysis/style_profile.py:75-78 | one count per pattern; CitationExamples.CountsNamed states the names in dictionary order and each total |
| CitationExamples.CountsNamed | artw/analysis/style_profile.py:67-78 | the citations dictionary is in_text, et_al and page_ref, in that order, each with the total of its pattern over all texts |
| StyleProfile.PatternTotalAppend | artw/analysis/style_profile.py:77 | pattern totals over two corpora add up |
| StyleProfile.PatternTotal | artw/analysis/style_profile.py:77 | the number of `re.findall` matches of one pattern summed over the texts; PatternTotalAppend, NoParenNoInText and the CitationExamples lemmas state its value |
| StyleProfile.NoParenNoInText | artw/analysis/style_profile.py:70 | texts without `(` hold no in-text citation |
| StyleProfile.StyleProfiler.ExtractTerminology | artw/analysis/style_profile.py:82-87 | at most 100 terms, each of the term shape and seen more than 3 times, no repeats, most frequent first |
| StyleProfile.CorpusTermsShape | artw/analysis/style_profile.py:84-85 | every term found is an upper-case Turkish letter followed by at least 3 lower-case ones |
| StyleProfile.CorpusTerms | artw/analysis/style_profile.py:84-85 | the term matches in the blank-joined corpus; CorpusTermsShape states their shape |
| StyleProfile.Terminology | artw/analysis/style_profile.py:86-87 | the term list; TerminologyFacts states its bound, shape, frequency, order and completeness |
| StyleProfile.Frequent | artw/analysis/style_profile.py:87 | the filter keeps at most as many terms as entries |
| StyleProfile.FrequentPrefix | artw/analysis/style_profile.py:87 | on a count-sorted list, the filter keeps exactly the leading entries counted more than 3 |
| StyleProfile.FrequentTerms | artw/analysis/style_profile.py:86-87 | the kept terms are the leading entries of `most_common(100)` with count > 3, and all later entries have count <= 3 |
| StyleProfile.FrequentTermsCounted | artw/analysis/style_profile.py:86-87 | every kept term occurs more than 3 times |
| StyleProfile.FrequentTermsOrdered | artw/analysis/style_profile.py:86-87 | kept terms do not repeat and are by non-increasing frequency |
| StyleProfile.FrequentTermsComplete | artw/analysis/style_profile.py:86-87 | a term seen more than 3 times is left out only when 100 terms are kept, each at least as frequent |
| StyleProfile.TerminologyFacts | artw/analysis/style_profile.py:82-87 | the terminology list: bound, shape, frequency > 3, no repeats, order, and completeness up to 100 |
| StyleProfile.CountsJson | artw/analysis/style_profile.py:48 | `dict(most_common(50))` written as JSON keeps each item with its count, in order |
| StyleProfile.TermsJson | artw/analysis/style_profile.py:87 | the term list is written as a JSON list of the same strings |
| StyleProfile.NumJson | artw/analysis/style_profile.py:28 | a statistic is written as a JSON int exactly when Python computed an int (the guarded 0), otherwise as a float, with the same value either way |
| StyleProfile.ProfileToJson | artw/analysis/style_profile.py:26-33 | the profile dictionary as written; ProfileJsonKeys states its keys and order, ProfileJsonFields and ProfileJsonTop its values |
| StyleProfile.ProfileJsonKeys | artw/analysis/style_profile.py:26-33 | the written profile has the six keys in the order `analyze` inserts them, and citations and terminology read back as written |
| StyleProfile.VocabularyJson | artw/analysis/style_profile.py:45-50 | the vocabulary dictionary as written; VocabularyJsonKeys and ProfileJsonNested state its keys and values |
| StyleProfile.VocabularyJsonKeys | artw/analysis/style_profile.py:45-50 | the written vocabulary has its four keys in insertion order, and the two token counts read back as computed |
| StyleProfile.SentenceJson | artw/analysis/style_profile.py:61-65 | the sentence dictionary as written; SentenceJsonKeys and ProfileJsonNested state its keys and values |
| StyleProfile.SentenceJsonKeys | artw/analysis/style_profile.py:61-65 | the written sentence structure has its three keys in insertion order, and the median and total read back as computed |
| Strings.Strip | artw/analysis/style_profile.py:57 | `strip()` is empty exactly for an all-blank text, otherwise the slice from the first to the last non-blank character |
| Strings.Split | artw/analysis/style_profile.py:59 | every word of `split()` is non-empty and blank-free |
| Strings.SplitKeepsNonSpace | artw/analysis/style_profile.py:59 | the words of `split()`, concatenated, are the text's non-blank characters in order |
| Strings.RunEnd | artw/analysis/style_profile.py:56 | a greedy run: every character before the end has the property, the one at the end does not |
| Strings.RunEndIs | artw/analysis/style_profile.py:56 | a run that stops where the property fails is the greedy run |
| Strings.StripUnchanged | artw/analysis/style_profile.py:57 | a text without blanks at its ends strips to itself |
| Strings.SplitWordBlank | artw/analysis/style_profile.py:59 | `split()` of a word, a blank and a rest is the word followed by the words of the rest |
| Regex.MatchAt | artw/analysis/style_profile.py:40 | the match of a pattern at one position lies inside the text and starts there |
| Chars.IsUpperTr | artw/analysis/style_profile.py:85 | the class `[A-ZÇĞİÖŞÜ]`; ClassesApart states that it shares no character with the lower-case class |
| Chars.IsLowerTr | artw/analysis/style_profile.py:85 | the class `[a-zçğıöşü]`; ClassesApart states that it shares no character with the upper-case class |
| Chars.IsTerminator | artw/analysis/style_profile.py:56 | the class `[.!?]`; ClassesApart states that no terminator is a letter or a word character |
| Chars.ClassesApart | artw/analysis/style_profile.py:56 | no character is both upper- and lower-case; a terminator is neither, nor a word character of `Basic` |
| Chars.Apart | artw/analysis/citation_checker.py:11 | the separations between each run and the character after it on which the greedy matchers rely; BasicApart states that `Basic` keeps them |
| Chars.BasicApart | artw/analysis/citation_checker.py:11 | the concrete classes keep every separation that `Apart` lists |
| Regex.Boundary | artw/analysis/style_profile.py:40 | `\b` at a position: a word character on exactly one side; its negation is `\B`; BoundaryAtEnds states the two ends |
| Regex.BoundaryAtEnds | artw/analysis/style_profile.py:40 | at the start and at the end of a text, `\b` holds exactly next to a word character |
| Regex.MatchInText | artw/analysis/citation_checker.py:11 | a match of the in-text pattern, with or without the page group, starts at the position with `(`, ends inside the text with `)`, and with the page group has an upper-case author and a four-digit year |
| Regex.AuthorEnd | artw/analysis/citation_checker.py:11 | the author group found is one name (an upper-case Turkish letter, then lower-case ones) or two names joined by `ve`, `and` or `&` between runs of blanks |
| Regex.NameEnd | artw/analysis/citation_checker.py:11 | a name found is an upper-case Turkish letter followed by at least one lower-case one |
| Regex.ConjunctionEnd | artw/analysis/citation_checker.py:11 | the conjunction found is `ve`, `and` or `&` |
| Regex.CoAuthorEnd | artw/analysis/citation_checker.py:11 | the second author found is a run of blanks, a conjunction, a run of blanks and a name |
| Regex.YearStart | artw/analysis/citation_checker.py:11 | the year found follows the `,` at the position and a run of blanks, and is four digits |
| Regex.PagesAt | artw/analysis/citation_checker.py:11 | the optional page group `, s. N` or `, s. N-M` is non-empty and lies inside the text |
| Regex.InTextClose | artw/analysis/citation_checker.py:11 | after the year, a match ends with `)`, with or without the page group |
| Regex.InTextParts | artw/analysis/citation_checker.py:11 | once author and year are found, the whole match is decided by what follows the year |
| Regex.InTextPaged | artw/analysis/citation_checker.py:11 | a page group followed by `)` gives the match with groups author, year and page |
| Regex.InTextPlain | artw/analysis/style_profile.py:70 | `)` right after the year gives the match in both patterns, with an empty page group in the checker's |
| Regex.GroupsShape | artw/analysis/citation_checker.py:11 | author and year groups cut from their places in the text have the author group's shape and four digits |
| Regex.CaptureShape | artw/analysis/citation_checker.py:22 | every capturing match spans `(` to `)`, its author group is one name or two joined by `ve`, `and` or `&`, and its year is four digits |
| Regex.MatchWord | artw/analysis/style_profile.py:40 | a match of `\b\w+\b` starts at the position, is non-empty and ends inside the text |
| Regex.MatchEtAl | artw/analysis/style_profile.py:71 | a match of `\bet\s+al\.\B` starts at the position, is non-empty and ends inside the text |
| Regex.MatchPageRef | artw/analysis/style_profile.py:72 | a match of `s\.\s*\d+` starts at the position, is non-empty and ends inside the text |
| Regex.MatchTerm | artw/analysis/style_profile.py:85 | a match of the term pattern starts at the position, is non-empty and ends inside the text |
| Regex.MatchCaption | artw/analysis/citation_checker.py:36 | a match of the caption pattern starts at the position, is non-empty and ends inside the text |
| Regex.InTextWithoutPages | artw/analysis/style_profile.py:70 | the profile's pattern matches exactly where the checker's pattern matches with no page group, and over the same span |
| Regex.Scan | artw/analysis/style_profile.py:77 | the scan reports matches inside the text, in order, without overlap |
| Regex.FindAll | artw/analysis/style_profile.py:40 | `re.findall` reports non-overlapping matches in order |
| Regex.MatchedText | artw/analysis/style_profile.py:40 | the strings `re.findall` returns are the matched slices |
| Regex.ScanSound | artw/analysis/style_profile.py:77 | every reported match is the pattern's match at its start |
| Regex.ScanSkip | artw/analysis/style_profile.py:77 | positions without a match are passed over |
| Regex.ScanComplete | artw/analysis/style_profile.py:77 | a position where the pattern matches lies inside some reported match |
| Regex.FindAllSound | artw/analysis/citation_checker.py:23 | each reported match is a match of the pattern |
| Regex.FindAllComplete | artw/analysis/citation_checker.py:22 | no match is missed |
| Regex.FindAllEmpty | artw/analysis/citation_checker.py:36-39 | `re.findall` is empty exactly when the pattern matches nowhere |
| CitationChecker.ExtractInTextCitations | artw/analysis/citation_checker.py:21-24 | one pair per match of the capturing pattern, in order: its author and year groups |
| CitationChecker.CaptureGroupsPresent | artw/analysis/citation_checker.py:23-24 | every match has the three groups the comprehension unpacks |
| CitationChecker.CitationShape | artw/analysis/citation_checker.py:21-24 | each extracted author is one name or two joined by `ve`, `and` or `&` between blanks, each year is four digits, and each match is enclosed in parentheses |
| CitationChecker.CheckEtAlUsage | artw/analysis/citation_checker.py:26-32 | the et-al check reports no issue, whatever the text |
| CitationChecker.ValidateVisualCaptions | artw/analysis/citation_checker.py:34-43 | no issue exactly when some position starts a caption; otherwise the single "No visual captions found" issue |
| CitationChecker.CaptionAccepted | artw/analysis/citation_checker.py:35-42 | a text containing `Görsel 1. Picasso` passes |
| CitationChecker.CaptionMissing | artw/analysis/citation_checker.py:39-40 | a text without `Görsel` gets the one issue |
| CitationExamples.PagedCaptured | artw/analysis/citation_checker.py:11 | `(`, author, year, page group and `)` give the checker's match with those three groups |
| CitationExamples.PagedRejected | artw/analysis/style_profile.py:70 | a comma after the year means the profile's pattern does not match there |
| CitationExamples.PlainCaptured | artw/analysis/style_profile.py:70 | `(`, author, year and `)` match in both patterns, with an empty page group in the checker's |
| CitationExamples.NoInTextMatch | artw/analysis/style_profile.py:77 | a text whose only `(` starts no match has no in_text match at all |
| CitationExamples.ExtractOne | artw/analysis/citation_checker.py:21-24 | a single capturing match is extracted as its author and year groups |
| CitationExamples.SingleTotal | artw/analysis/style_profile.py:77 | over a one-text corpus, a pattern's total is the number of its matches in that text |
| CitationExamples.PagedCounted | artw/analysis/style_profile.py:70-78 | a text that is one paged citation is extracted as its author and year and counted 0 times as in_text |
| CitationExamples.PlainCounted | artw/analysis/style_profile.py:70-78 | a text that is one plain citation is extracted as its author and year and counted once as in_text |
| CitationExamples.PagedTextCounted | artw/analysis/citation_checker.py:21-24 | a text laid out as `(Author, Year, s. Page)`, with an author of the pattern's shape, is extracted as (Author, Year) and not counted |
| CitationExamples.PlainTextCounted | artw/analysis/citation_checker.py:21-24 | a text laid out as `(Author, Year)`, with an author of the pattern's shape, is extracted as (Author, Year) and counted once |
| CitationExamples.WholeMatch | artw/analysis/style_profile.py:77 | a match spanning the text is the only one reported |
| CitationExamples.PagedCitationCounted | artw/analysis/style_profile.py:70-78 | a citation laid out as `(Author, Year, s. Page)` with single blanks and a page of digits, whose author is one name or two joined by `ve`, `and` or `&`, is extracted as (Author, Year) but counted 0 times as in_text |
| CitationExamples.PlainCitationCounted | artw/analysis/style_profile.py:70-78 | a citation laid out as `(Author, Year)` with a single blank, whose author is one name or two joined by `ve`, `and` or `&`, is extracted as (Author, Year) and counted once as in_text |
| CitationExamples.AuthorAt | artw/analysis/citation_checker.py:11 | conversely, every author of the pattern's shape followed by `,`, whether one name or two joined by a conjunction, is found whole by the author group |
| CitationExamples.TwoAuthorsAt | artw/analysis/citation_checker.py:11 | a name followed by blanks, a conjunction, blanks, a second name and `,` is found whole by the author group |
| CitationExamples.CoAuthorAt | artw/analysis/citation_checker.py:11 | blanks, a conjunction, blanks and a name followed by `,` are found whole as the second author |
| CitationExamples.AuthorNoParen | artw/analysis/citation_checker.py:11 | an author of the pattern's shape holds no `(` |
| CitationExamples.YearAt | artw/analysis/citation_checker.py:11 | `, ` followed by four digits gives the year there |
| CitationExamples.PagesOf | artw/analysis/citation_checker.py:11 | `, s. ` followed by digits and `)` gives those digits as the page group |
| CitationExamples.PlainAt | artw/analysis/style_profile.py:70 | a plain citation anywhere in a text is matched whole by both patterns there, with its author and year as the checker's groups |
| CitationExamples.PagedAt | artw/analysis/citation_checker.py:11 | a paged citation anywhere in a text is matched whole by the checker's pattern there, with its author, year and page as groups, and not by the profile's |
| CitationExamples.OneMatch | artw/analysis/style_profile.py:77 | a pattern that matches at one position only is reported there alone |
| CitationExamples.TwoMatches | artw/analysis/citation_checker.py:23 | a pattern that matches at two positions only, the second after the first match ends, is reported at both, in order |
| CitationExamples.ExtractTwo | artw/analysis/citation_checker.py:21-24 | two capturing matches are extracted as their two (author, year) pairs, in order |
| CitationExamples.NoEtAl | artw/analysis/style_profile.py:71 | a text without `t` holds no `et al.` |
| CitationExamples.PageRefOf | artw/analysis/style_profile.py:72 | the `s. Page` of a paged citation is a page reference ending where the page does |
| CitationExamples.PairCounted | artw/analysis/style_profile.py:67-80 | a text with a plain citation at its start and a paged one at its end, and no other `(`, `t` or `s`, gives both pairs to the checker and the counts in_text 1, et_al 0, page_ref 1 to the profile |
| CitationExamples.PlainThenPaged | artw/analysis/citation_checker.py:21-24 | a plain citation, words without `(`, `s` or `t`, then a paged citation: both pairs extracted in order; in_text 1, et_al 0, page_ref 1 |
| CitationExamples.AydinDemirShape | artw/analysis/citation_checker.py:11 | `Aydın ve Demir` is an author of the pattern's shape |
| CitationExamples.AydinDemirCounted | artw/analysis/style_profile.py:67-80 | "(Aydın, 2020) ve (Aydın ve Demir, 2021, s. 45)" is extracted as ("Aydın", "2020") and ("Aydın ve Demir", "2021"), and counted as in_text 1, et_al 0, page_ref 1 |
| CitationExamples.AydinPlain | artw/analysis/citation_checker.py:21-24 | "(Aydın, 2020)" is extracted as ("Aydın", "2020") and counted once |
| CitationExamples.AydinPaged | artw/analysis/style_profile.py:70 | "(Aydın, 2020, s. 45)" is extracted as ("Aydın", "2020") and not counted |
| Scenarios.ExamplePieces | artw/analysis/style_profile.py:56 | "Bu bir test. Bu ikinci cümle." splits into "Bu bir test", " Bu ikinci cümle" and "" |
| Scenarios.ExampleSentences | artw/analysis/style_profile.py:56-57 | its sentences are "Bu bir test" and "Bu ikinci cümle" |
| Scenarios.ExampleLengths | artw/analysis/style_profile.py:59 | both sentences are 3 words long |
| Scenarios.TwoSentences | artw/analysis/style_profile.py:52-65 | a one-text corpus of it has 2 sentences, average 3.0 and median 3 |
| Scenarios.ThreeWords | artw/analysis/style_profile.py:59 | three blank-free words joined by blanks split back into those words |
| Scenarios.TwoOfThree | artw/analysis/style_profile.py:61-64 | two sentences of 3 words give average 3.0, median 3 and total 2 |
| Scenarios.EvenMedian | artw/analysis/style_profile.py:63 | the median of [1, 2, 3, 4] is 3 |
| Json.Lookup | artw/prompts/templates.py:112-115 | a key is found exactly when present, with a value stored under it |
| Json.LookupUnique | artw/prompts/templates.py:112-115 | with unique keys, each key finds its own value |
| Json.KeyList | artw/prompts/templates.py:115 | `keys()` lists every key once and each listed key is found |
| Json.KeyListUnique | artw/prompts/templates.py:115 | with unique keys, `keys()` is the keys in stored order |
| PromptTemplates.Truncate | artw/prompts/templates.py:111 | `int()` of a float truncates toward zero |
| PromptTemplates.ToInt | artw/prompts/templates.py:111 | `int()` keeps ints, truncates floats and raises TypeError on None, lists and dictionaries |
| PromptTemplates.Index | artw/prompts/templates.py:112-114 | `v[key]` succeeds exactly on a dictionary holding the key, and raises KeyError on a dictionary without it |
| PromptTemplates.KeysOf | artw/prompts/templates.py:115 | `.keys()` succeeds exactly on a dictionary and gives its key list |
| PromptTemplates.PromptsSharePreamble | artw/prompts/templates.py:107-160 | the three prompts fail exactly when the preamble fails, with its error, and otherwise begin with the preamble |
| PromptTemplates.Preamble | artw/prompts/templates.py:110-116 | the rendered system prompt; RenderableIff states when it renders, PreambleRendersProfile and SystemTextShows what it shows, FirstErrors which error it raises |
| PromptTemplates.GetOutlinePrompt | artw/prompts/templates.py:107-121 | the outline prompt; PromptsSharePreamble, OutlineShowsTopic, OutlineShowsCount and OutlineTopicSpan state its errors and contents |
| PromptTemplates.GetSectionPrompt | artw/prompts/templates.py:123-144 | the section prompt; PromptsSharePreamble and SectionShowsFields state its errors and contents |
| PromptTemplates.GetCitationPrompt | artw/prompts/templates.py:146-160 | the reference-list prompt; PromptsSharePreamble, CitationShowsMinimum and CitationDefault state its errors, contents and default |
| PromptTemplates.RenderableIff | artw/prompts/templates.py:110-116 | the preamble renders exactly when the profile holds every key it reads, `avg_doc_length` alone being optional |
| PromptTemplates.PreambleRendersProfile | artw/prompts/templates.py:8-24 | a rendered preamble shows `int()` of the length, `str()` of the sentence length, diversity and count, and the first 20 top words |
| PromptTemplates.FirstErrors | artw/prompts/templates.py:111-112 | arguments are evaluated in order: a bad length raises first, then a missing `sentence_structure` |
| PromptTemplates.EmptyProfileFails | artw/prompts/templates.py:111-112 | an empty profile raises KeyError('sentence_structure'); it does not fall back to defaults |
| PromptTemplates.NonObjectProfileFails | artw/prompts/templates.py:111 | a profile that is not a dictionary fails on `.get` |
| PromptTemplates.LengthDefault | artw/prompts/templates.py:111 | a missing length shows as 4000; a float length is truncated toward zero |
| PromptTemplates.SystemTextShows | artw/prompts/templates.py:8-24 | the system prompt shows the length after its head, the other values after their labels, and ends with the term list |
| PromptTemplates.SystemShowsCount | artw/prompts/templates.py:14 | the system prompt shows the document count after its label |
| PromptTemplates.TermList | artw/prompts/templates.py:115 | the term list holds the first min(20, n) keys in order and is a prefix of the list of all keys |
| PromptTemplates.OutlineShowsTopic | artw/prompts/templates.py:26-30 | the outline prompt starts with the preamble and shows the topic after `KONU: ` |
| PromptTemplates.OutlineKeepsSystem | artw/prompts/templates.py:26 | whatever the preamble shows, the outline prompt shows too |
| PromptTemplates.OutlineShowsCount | artw/prompts/templates.py:107-121 | a rendered outline prompt shows the topic and the profile's document count |
| PromptTemplates.AnalysisOutlineShowsCount | artw/prompts/templates.py:107-121 | the outline prompt for an analysed corpus renders and shows the topic and the number of documents in decimal |
| PromptTemplates.ProfileOutlineShowsCount | artw/prompts/templates.py:107-121 | the outline prompt for any written profile renders and shows the topic and the document count |
| PromptTemplates.OutlineParts | artw/prompts/templates.py:26-58 | the outline prompt is the text before the topic, the topic, and the format instructions, in that order |
| PromptTemplates.OutlineTopicSpan | artw/prompts/templates.py:26-58 | two outline prompts over the same preamble differ only in the topic span, so different topics give different prompts |
| PromptTemplates.SectionShowsFields | artw/prompts/templates.py:60-79 | the section prompt shows both titles, the word estimate, the key points and the minimum citations |
| PromptTemplates.CitationShowsMinimum | artw/prompts/templates.py:81-86 | the reference-list prompt shows the topic followed by the number of references |
| PromptTemplates.CitationDefault | artw/prompts/templates.py:146 | without `min_references` the prompt asks for 25 |
| PromptTemplates.ProfileJsonFields | artw/analysis/style_profile.py:26-33 | the written profile holds document_count, avg_doc_length, vocabulary and sentence_structure with the computed values |
| PromptTemplates.ProfileJsonNested | artw/analysis/style_profile.py:45-64 | the written vocabulary and sentence dictionaries hold top_50_words, lexical_diversity and avg_sentence_length |
| PromptTemplates.CountsKeys | artw/prompts/templates.py:115 | the keys of a written counts dictionary are the counted items |
| PromptTemplates.ProfileJsonTop | artw/analysis/style_profile.py:26-33 | the written profile holds dictionaries under sentence_structure and vocabulary, and a document_count |
| PromptTemplates.ProfileJsonLength | artw/prompts/templates.py:111 | `int()` of the written avg_doc_length succeeds |
| PromptTemplates.StandardTexts | artw/prompts/templates.py:8-105 | the fixed wording of the four templates, split at their placeholders; the lemmas on the prompts hold for any wording |
| PromptTemplates.SystemText | artw/prompts/templates.py:8-24 | SYSTEM_PROMPT with its five values in place; SystemTextShows and SystemShowsCount state where each value appears |
| PromptTemplates.OutlineText | artw/prompts/templates.py:26-58 | ARTICLE_OUTLINE with the preamble and topic in place; OutlineShowsTopic, OutlineKeepsSystem and OutlineTopicSpan state its contents |
| PromptTemplates.SectionText | artw/prompts/templates.py:60-79 | SECTION_WRITER with its six values in place; SectionShowsFields states its contents |
| PromptTemplates.CitationText | artw/prompts/templates.py:81-105 | CITATION_GENERATOR with the preamble, topic and count in place; CitationShowsMinimum states its contents |
| PromptTemplates.Str | artw/prompts/templates.py:112-114 | the text Jinja2 inserts for a value; StrScalars states the scalar cases |
| PromptTemplates.StrScalars | artw/prompts/templates.py:112-114 | None shows as `None`, booleans as `True`/`False`, a string as itself, and distinct integers as distinct texts |
| PromptTemplates.AvgDocLength | artw/prompts/templates.py:111 | `profile.get('avg_doc_length', 4000)`; LengthDefault states the default and the truncation, ProfileJsonLength that a written profile has an int or float there |
| PromptTemplates.ProfileRenderable | artw/prompts/templates.py:110-116 | every profile the analyzer writes is renderable |
| PromptTemplates.ProfileWritesTerms | artw/prompts/templates.py:115 | the preamble of a written profile ends with its first 20 top words |
| PromptTemplates.AnalysisProfileRenders | artw/prompts/templates.py:110-116 | the profile of any corpus renders, listing the corpus' 20 most common words |
| Strings.JoinPrefix | artw/prompts/templates.py:115 | joining a prefix of a list gives a prefix of the joined list |
| Strings.Join | artw/prompts/templates.py:115 | `sep.join(items)`, used with ", " here, at artw/export/docx_builder.py:52 and :64 and for key points, and with " " at artw/analysis/style_profile.py:84; JoinSnoc and JoinPrefix state how it grows |
| Strings.JoinSnoc | artw/prompts/templates.py:115 | joining one more item appends the separator and that item |
| Strings.Take | artw/prompts/templates.py:115 | `[:n]` keeps the first min(n, len) elements |
| Strings.ContainsWithin | artw/prompts/templates.py:26 | what a prefix contains, the whole text contains |
| Strings.NatToString | artw/prompts/templates.py:114 | `str()` of a natural number is non-empty decimal digits without a leading zero |
| Strings.NatToStringRoundTrip | artw/prompts/templates.py:114 | reading the digits back gives the number |
| Strings.NegativeSign | artw/prompts/templates.py:114 | `str()` of an int starts with `-` exactly for a negative number |
| Strings.IntToStringInjective | artw/prompts/templates.py:114 | different ints show differently |
| Strings.IntToString | artw/export/docx_builder.py:90 | `str()` of an int, as in the placeholder and the rendered prompts; NegativeSign, NatToString, NatToStringRoundTrip and IntToStringInjective state its form and that it reads back |
| Document.KeywordsText | artw/export/docx_builder.py:52-55 | the text of the keywords paragraph is its label followed by the keywords joined by ", " |
| Document.ParaText | artw/export/docx_builder.py:49 | the text of the paragraph `add_paragraph(text)` adds is the text itself, "" included |
| Document.Para | artw/export/docx_builder.py:49 | `add_paragraph(text)`: one plain run, or no run for ""; ParaText states its text |
| Document.KeywordsPara | artw/export/docx_builder.py:53-55 | a bold label run and an italic run of the joined keywords; KeywordsText states its text |
| Document.ViewsAppend | artw/export/docx_builder.py:33-78 | headings, paragraph texts and page breaks of appended blocks are those of each part, in order |
| DocxBuilder.DocxBuilder.constructor | artw/export/docx_builder.py:13-15 | a new builder holds an empty document |
| DocxBuilder.DocxBuilder.AddHeading | artw/export/docx_builder.py:44 | appends one heading at the given level, nothing else changes |
| DocxBuilder.DocxBuilder.AddParagraph | artw/export/docx_builder.py:49 | appends one paragraph: one plain run of the text, or no run at all for "" |
| DocxBuilder.DocxBuilder.AddRun | artw/export/docx_builder.py:54-55 | appends a run to the last paragraph, nothing else changes |
| DocxBuilder.DocxBuilder.AddPageBreak | artw/export/docx_builder.py:69 | appends one page break |
| DocxBuilder.DocxBuilder.AddKeywords | artw/export/docx_builder.py:52-55 | appends one paragraph: a bold label and the italic joined keywords |
| DocxBuilder.DocxBuilder.BuildFromOutline | artw/export/docx_builder.py:33-78 | appends exactly the blocks of the outline and returns the document |
| DocxBuilder.DocxBuilder.AddFrontMatter | artw/export/docx_builder.py:43-69 | appends title, both abstracts with their keywords, the spacing paragraph and a page break |
| DocxBuilder.DocxBuilder.AddSections | artw/export/docx_builder.py:72-73 | appends each section's blocks in order |
| DocxBuilder.DocxBuilder.AddSection | artw/export/docx_builder.py:80-105 | appends the section's heading, its content and its subsections |
| DocxBuilder.DocxBuilder.AddSubsections | artw/export/docx_builder.py:99-105 | appends each subsection's blocks in order |
| DocxBuilder.DocxBuilder.AddSubsection | artw/export/docx_builder.py:100-105 | a string gets a heading and the fixed placeholder, a dictionary its title and content, anything else nothing |
| DocxBuilder.DocxBuilder.AddReferences | artw/export/docx_builder.py:107-121 | appends a page break, the `Kaynakça` heading, and the references or the placeholder |
| DocxBuilder.SectionContent | artw/export/docx_builder.py:86-94 | the paragraph text is never empty, and is the given content when that is non-empty |
| DocxBuilder.PlaceholderContent | artw/export/docx_builder.py:86-94 | the loop builds the placeholder text: estimate line, one `- point` line per key point, citation minimum |
| DocxBuilder.PlaceholderShows | artw/export/docx_builder.py:90-94 | the placeholder starts with the estimate and the points label, shows each key point at its place, and ends with the citation minimum |
| DocxBuilder.PointLinesPrefix | artw/export/docx_builder.py:92-93 | the lines of the first j points are a prefix of all the lines |
| DocxBuilder.PlaceholderHead | artw/export/docx_builder.py:90 | the estimate line of the placeholder; PlaceholderShows states that the placeholder opens with it |
| DocxBuilder.PointLine | artw/export/docx_builder.py:93 | one `- point` line; PlaceholderShows states where each one appears |
| DocxBuilder.PointLines | artw/export/docx_builder.py:92-93 | the lines the `for point` loop adds, in order; PointLinesPrefix and PlaceholderShows state their order and place |
| DocxBuilder.SubsectionShape | artw/export/docx_builder.py:99-105 | a subsection gives at most one level-2 heading and its paragraph, and no page break |
| DocxBuilder.SubsectionBlocks | artw/export/docx_builder.py:100-105 | the blocks of one subsection for a string, a dictionary and anything else; SubsectionShape states their shape |
| DocxBuilder.SubsectionsHeadings | artw/export/docx_builder.py:99-105 | the level-2 headings are the subsection titles in order, and there are no headings at other levels |
| DocxBuilder.SubsectionsBodies | artw/export/docx_builder.py:99-105 | the paragraphs are the subsection bodies in order, with no page break |
| DocxBuilder.SectionHeadings | artw/export/docx_builder.py:80-105 | a section gives its title at level 1 and its subsection titles at level 2 |
| DocxBuilder.SectionBodies | artw/export/docx_builder.py:80-105 | a section's paragraphs are its content followed by its subsection bodies |
| DocxBuilder.SectionsHeadings | artw/export/docx_builder.py:72-73 | the level-1 headings of the sections are their titles in order |
| DocxBuilder.SectionsBreaks | artw/export/docx_builder.py:72-73 | sections add no page break |
| DocxBuilder.SectionsBlocks | artw/export/docx_builder.py:72-73 | the blocks of every section in order; SectionsHeadings and SectionsBreaks state its headings and that it has no break |
| DocxBuilder.ReferenceShape | artw/export/docx_builder.py:116-121 | a string is its own paragraph; a dictionary gives apa_citation, else citation, else ""; anything else adds nothing |
| DocxBuilder.ReferenceBlocks | artw/export/docx_builder.py:117-121 | the paragraph one reference adds, if any; ReferenceShape states it per kind |
| DocxBuilder.ReferenceListParagraphs | artw/export/docx_builder.py:116-121 | the reference paragraphs are the reference texts in order |
| DocxBuilder.ReferenceListPlain | artw/export/docx_builder.py:116-121 | references add no heading and no page break |
| DocxBuilder.ReferenceList | artw/export/docx_builder.py:116-121 | the paragraphs of the references loop in order; ReferenceListParagraphs and ReferenceListPlain state their texts and that nothing else is added |
| DocxBuilder.ReferencesParagraphs | artw/export/docx_builder.py:107-121 | without references the only paragraph is the placeholder; otherwise the reference texts |
| DocxBuilder.ReferencesHeadings | artw/export/docx_builder.py:107-110 | the part starts with a page break and the `Kaynakça` heading, its only heading and break |
| DocxBuilder.AbstractPartShape | artw/export/docx_builder.py:47-55 | an abstract part is one level-1 heading, the abstract paragraph and the keywords paragraph |
| DocxBuilder.AbstractPart | artw/export/docx_builder.py:47-55 | one abstract: its heading, the abstract paragraph and the keywords paragraph; AbstractPartShape states its headings and paragraphs |
| DocxBuilder.FrontMatterParagraphs | artw/export/docx_builder.py:43-67 | the front matter's paragraphs: Turkish abstract, its keywords, the empty spacer, English abstract, its keywords |
| DocxBuilder.FrontMatterHeadings | artw/export/docx_builder.py:43-60 | the title (default `Başlık`) at level 0, `Özet` and `Abstract` at level 1 |
| DocxBuilder.FrontMatterBreaks | artw/export/docx_builder.py:69 | the front matter ends with its only page break |
| DocxBuilder.OutlineHeadings | artw/export/docx_builder.py:33-78 | the document's only level-0 heading is the title; its level-1 headings are `Özet`, `Abstract`, the section titles and `Kaynakça` |
| DocxBuilder.OutlineBreaks | artw/export/docx_builder.py:69 | the document has exactly two page breaks: after the front matter and before the references |
| DocxBuilder.OutlineBlocks | artw/export/docx_builder.py:33-78 | every block `build_from_outline` appends; OutlineHeadings and OutlineBreaks state its headings and page breaks, BuildFromOutline that the method appends exactly these |
| DocxBuilder.FrontMatter | artw/export/docx_builder.py:43-69 | title, abstracts, keyword lines, spacing paragraph and page break; FrontMatterParagraphs, FrontMatterHeadings and FrontMatterBreaks state its views |
| DocxBuilder.SectionBlocks | artw/export/docx_builder.py:80-105 | one section's blocks; SectionHeadings and SectionBodies state its headings and paragraphs |
| DocxBuilder.ReferencesPart | artw/export/docx_builder.py:107-121 | the references part; ReferencesHeadings and ReferencesParagraphs state its break, heading and paragraphs |
| DocxBuilder.PlaceholderText | artw/export/docx_builder.py:88-94 | the text written for a section without content; PlaceholderShows and PlaceholderContent state what it shows |
| CleanJson.OpeningFence | clean_json.py:10-13 | the opening removed is ```` ```json ```` when the text starts with it, otherwise ```` ``` ```` when it starts with that, otherwise nothing |
| CleanJson.ClosingFence | clean_json.py:15-16 | the closing removed is ```` ``` ```` exactly when the text ends with it |
| CleanJson.Unfenced | clean_json.py:10-16 | the opening fence is removed first, then the closing fence from what is left |
| CleanJson.Cleaned | clean_json.py:9-18 | the cleaned text has no blank at either end |
| CleanJson.CleanFences | clean_json.py:9-18 | the step-by-step reassignment of `content` computes the cleaned text |
| CleanJson.UnfencedParts | clean_json.py:10-16 | removing a recognised opening and closing leaves the middle |
| CleanJson.NoFence | clean_json.py:9-18 | an unfenced answer is only stripped |
| CleanJson.JsonFenced | clean_json.py:10-11 | an answer fenced with ```` ```json ```` cleans to its stripped body |
| CleanJson.PlainOpening | clean_json.py:12-13 | a plain fence is recognised when the body does not start with `json` |
| CleanJson.PlainFenced | clean_json.py:12-16 | an answer fenced with ```` ``` ```` cleans to its stripped body |
| CleanJson.StripKeepsEnd | clean_json.py:18 | stripping keeps a blank-free ending |
| CleanJson.ClosingOnce | clean_json.py:15-16 | only one closing fence is removed: a doubled closing fence leaves one behind |

## Left out

- `validate_doi` (citation_checker.py) is an HTTP request to doi.org. Network access is outside the model.
- File I/O is outside the model. This covers `jsonlines.open` in `load_corpus` and the reads and writes in clean_json.py; the model takes the records and the file content as values. The `json.loads`/`json.dump` step after the fence stripping is not part of this model. Neither is `save` of the DOCX builder.
- Logging calls (`logger.info`, `logger.debug`) are left out because they change no state the core reads.
- `_setup_styles` (fonts, sizes, bold headings), the title's centre alignment and the `style='Normal'` argument are left out. They set formatting, not content; the model records text, heading levels, run bold/italic and page breaks.
- Floats are modelled as exact reals. Python's `str()` of a float, of a list and of a dictionary, and `int()` of a string, are the parameter `Rendering`.
- Unicode `\w`, `\s`, `\d` and `str.lower()` are the parameter `CharRules`; the Unicode tables themselves are not modelled.
- The regular-expression engine is replaced by one deterministic matcher per pattern. The other patterns of the repository (`DOI_PATTERN`, the et-al pattern in `check_et_al_usage`, whose result is never used) are not modelled.
- Jinja2 is modelled as concatenation of the fixed pieces and the inserted values; its autoescaping and whitespace control are not used by these templates.
- Only the profile fields the templates read are checked for presence; a profile with extra keys behaves the same.
- The LLM adapter, PDF ingest, the CLI and the configuration are not part of this model.
- Regex.MatchWord: the contract states only where a match lies, not which characters it accepts; the body is the matcher itself.
- Regex.MatchEtAl: the contract states only where a match lies; the body spells out `\bet\s+al\.\B`.
- Regex.MatchPageRef: the contract states only where a match lies; the body spells out `s\.\s*\d+`.
- Regex.MatchTerm: the contract states only where a match lies; the term shape of the reported terms is proved by StyleProfile.CorpusTermsShape.
- Regex.MatchCaption: the contract states only where a match lies; CitationChecker.CaptionAccepted shows one caption it accepts.
- Regex.MatchInText: the contract states where a match lies, its parentheses and its group shapes, not every character it accepts; CitationExamples.PagedCaptured and CitationExamples.PlainCaptured pin the matches of the two citation forms.
- CitationExamples.PagedCitationCounted: covers only the layout with single blanks after the commas and after `s.` and a page of digits. Other blank runs and page ranges such as `45-47` are covered by CitationExamples.PagedCounted, which takes any one-citation text the pattern matches with a page group.
- CitationExamples.PlainCitationCounted: covers only the layout with a single blank after the comma. Other blank runs are covered by CitationExamples.PlainCounted, which takes any one-citation text the pattern matches without a page group.
- JSON values of the wrong type are not modelled. The outline and the corpus records are typed records in which a key is either absent or holds a value of the expected type. A JSON `null` or a value of another type behaves differently in the code:
  - `keywords_tr` or `keywords_en` null makes `', '.join` raise `TypeError` (artw/export/docx_builder.py:52, :64);
  - `sections` or `subsections` null makes the `for` loop raise `TypeError` (artw/export/docx_builder.py:72, :99);
  - a section that is not a dictionary makes `section.get` raise `AttributeError` (artw/export/docx_builder.py:83);
  - `estimated_words` null writes `None` into the placeholder (artw/export/docx_builder.py:90), where the model writes the default 500;
  - a subsection `content` null adds an empty paragraph (artw/export/docx_builder.py:105), where the model writes `[İçerik buraya gelecek]`;
  - an outline `title` null adds an empty title heading (artw/export/docx_builder.py:44), where the model writes `Başlık`;
  - `apa_citation` null adds an empty paragraph (artw/export/docx_builder.py:120), where the model falls back to `citation`;
  - a corpus record whose `text` is null or a number is appended (artw/analysis/style_profile.py:21) and makes `t.split()` fail later (artw/analysis/style_profile.py:28).
- Dictionary insertion order is modelled by sequences of pairs; when two items have the same count, `most_common` keeps them in first-seen order, as CPython's stable sort does.
