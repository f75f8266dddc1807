# YT-Comments-Clustering in Dafny

YT-Comments-Clustering pulls the top-level comments of a YouTube video through the YouTube Data
API v3, cleans their text with a fixed chain of preprocessing stages, clusters the cleaned texts
(TF-IDF features, k-means), and shows one word cloud per cluster plus a bar graph of likes and
comments per cluster. This project models the parts of that system that decide what data flows
where, and proves properties about them:

- **The two comment extractors** are `get_video_comments` in
  `src/comments-extractor/yt-comments-extractor.py` and in
  `comment-scraper/yt-comment-extractor.py`.
  - The server is a scripted sequence of response pages with an optional failure point.
  - The client is a `YouTube` object that records each request it makes.
  - Paging follows `nextPageToken` until a page has none or a request raises `HttpError`. The
    pages received before the error are kept.
  - The newer extractor numbers the distinct `(likeCount, textDisplay)` pairs as `"0"`,
    `"1"`, … .
  - The older one returns each distinct text once, as a tuple.
  - Both check their arguments with assertions before making any request.
- **The two revisions of the preprocessing stages**:
  - **`text_preprocessing.py` (the earlier revision):**
    - its own URL expression `https?://\S+|www\.\S+`;
    - chat-word conversion by splitting on whitespace and looking up each word's upper case;
    - TextBlob spelling correction;
    - stopword blanking by splitting.
  - **`src/text_preprocessing.py` (the revision the driver uses):**
    - NFKD normalisation followed by a character translation table;
    - whole-word (`\b…\b`) chat-word replacement with lower-case keys. Only words that are
      keys expand. `r`, for one, is not a key, so `u r gr8!!` cleans up to `you r great!  `
      before stopword removal, and `are` never appears.
    - In this file the module-level name `pattern` is bound three times: to a URL expression, to
      the stopword alternation, and finally to `^[a-zA-Z0-9]+$`. `remove_url` and
      `remove_stopwords` read `pattern` when they are called, so both use the last binding.
    - The effect is that each of them deletes a text that is a single ASCII alphanumeric word
      (a final newline survives) and returns every other text unchanged. The model follows
      the code, not what the function names suggest.
  - Each revision's `PROCESSES` tuple is modelled as a stage list, run cell by cell. A stage that
    would raise on its input yields `None`.
  - Each run is proved equal to the composition written out.
- **The clustering driver** is `src/main.py`:
  - **Frame:**
    - The frame is a `Frame` object whose rows `preprocess_dataframe` rewrites in place, one stage
      at a time.
    - `process_data` copies `pre_clean` into `post_clean`.
    - It then splits the rows into `cpu_count()` contiguous sections the way `np.array_split`
      does: the first `len % n` sections get one extra row.
    - It cleans each section and concatenates the results.
  - **Reporting, from the CSV read back:**
    - the cluster keys in ascending order;
    - one word-cloud text per cluster, joining the non-missing `post_clean` texts;
    - per-cluster `total_likes` (a sum) and `total_comments` (a count of non-missing
      `like_count`).

The third-party text libraries are parameters of the model, bundled in one `Toolkit` value:

- emoji demojizing
- NFKD
- spaCy tokenisation
- Porter stemming
- TextBlob
- the NLTK stopword list
- non-ASCII case mapping and `isalnum`

The network is likewise a parameter: a page script with a failure point.

## Model

| member | source | states |
|---|---|---|
| PyStr.PunctuationRanges | src/text_preprocessing.py:41 | a character is in `string.punctuation` exactly when it lies in one of the four ASCII punctuation ranges |
| PyStr.WordsOfJoin | text_preprocessing.py:121 | splitting a space-joined list of texts gives the words of all those texts, in order |
| PyStr.SplitJoinRoundTrip | text_preprocessing.py:116-121 | splitting a space-joined list of space-free words gives back the non-empty ones (empty strings vanish) |
| PyStr.SplitJoinSplit | text_preprocessing.py:116-121 | `split` after `' '.join(split)` is the identity on word lists: the round trip is stable |
| PyStr.JoinSpaceLength | text_preprocessing.py:140 | a joined text is as long as its parts plus one separator between each neighbouring pair |
| PyStr.Decimal | src/comments-extractor/yt-comments-extractor.py:58 | `str(index)` is a non-empty string of decimal digits, longer than one digit exactly from 10 on |
| PyStr.DecimalInjective | src/comments-extractor/yt-comments-extractor.py:58-59 | different indices give different keys |
| Nlp.Lower | src/text_preprocessing.py:101 | on ASCII text `str.lower` keeps the length and folds every character to its lower case |
| Nlp.LowerIdempotentOnAscii | src/text_preprocessing.py:101 | lowering ASCII text twice is lowering it once, whatever the toolkit |
| Nlp.LowerAppend | src/text_preprocessing.py:101 | lowering distributes over concatenation |
| Nlp.LowerIdempotent | src/text_preprocessing.py:101 | lowering any text twice is lowering it once, when the toolkit's lower case of each non-ASCII character is itself lower case |
| SharedStages.RemovePunctuation | src/text_preprocessing.py:37-42 | the translation keeps the length, maps each punctuation character to a space and keeps every other character |
| SharedStages.NoPunctuationLeft | src/text_preprocessing.py:37-42 | no punctuation remains after the stage |
| SharedStages.RemovePunctuationIdempotent | text_preprocessing.py:17-22 | applying the stage twice equals applying it once |
| SharedStages.StemWordsSplit | src/text_preprocessing.py:91-96 | when every stem is a non-empty space-free word, splitting the joined output gives back exactly the stems |
| EarlierStages.UrlMatchLen | text_preprocessing.py:14 | a match starts with `http://`, `https://` or `www.`, goes beyond that prefix, and ends at whitespace or the end of the text |
| EarlierStages.RemoveUrl | text_preprocessing.py:10-15 | the substitution never lengthens the text |
| EarlierStages.NoUrlLeft | text_preprocessing.py:10-15 | no position of the result starts a match: every URL is gone |
| EarlierStages.UnchangedIffNoUrl | text_preprocessing.py:10-15 | a text is left unchanged exactly when it contains no match |
| EarlierStages.RemoveUrlIdempotent | text_preprocessing.py:10-15 | removing URLs twice equals removing them once |
| EarlierStages.KeepsBeforeMatch | text_preprocessing.py:14-15 | the characters before the first match are copied unchanged, and the rest of the text is processed on its own |
| EarlierStages.RemoveUrlKeepsBeforeMatch | text_preprocessing.py:14-15 | in a word without whitespace, exactly the characters before the first match remain (`abhttp://x` keeps `ab`) |
| EarlierStages.MatchShortens | text_preprocessing.py:10-15 | a text with a match anywhere becomes strictly shorter |
| EarlierStages.RemoveUrlAroundSpace | text_preprocessing.py:14 | matches never cross whitespace, so the stage distributes over a whitespace character |
| EarlierStages.RemoveUrlExample | text_preprocessing.py:10-15 | `"see www.x.io now"` becomes `"see  now"`: the link goes, both spaces stay |
| EarlierStages.ChatLookups | text_preprocessing.py:24-111 | the table has upper-case keys (`"LOL"` is a key); a word with punctuation attached is not a key |
| EarlierStages.ChatConversion | text_preprocessing.py:112-121 | the loop over the split words computes the split/replace/join conversion |
| EarlierStages.ChatConvertedWords | text_preprocessing.py:112-121 | the words of the result are the words of the expansions of the input's words |
| EarlierStages.ChatConvertedWithoutKeys | text_preprocessing.py:112-121 | a text with no abbreviation only has its whitespace normalised to single spaces |
| EarlierStages.ChatConvertedBlank | text_preprocessing.py:116-121 | a blank text becomes empty |
| EarlierStages.ChatConvertedToken | text_preprocessing.py:117-120 | a single word is replaced by its expansion, or kept if it is no key |
| EarlierStages.ChatConversionCaseInsensitive | text_preprocessing.py:118-120 | `lol`, `LoL` and `LOL` all expand, since the lookup uses the upper case; `lol,` does not |
| EarlierStages.RemoveStopwords | text_preprocessing.py:131-140 | the blanking loop computes the blank-and-join result |
| EarlierStages.BlankThenDrop | text_preprocessing.py:136-139 | blanking stopwords and then dropping empty words equals filtering the stopwords out |
| EarlierStages.StopwordsRemovedWords | text_preprocessing.py:131-140 | the words of the result are the input's words that are not stopwords, in order |
| EarlierStages.StopwordsKeepSeparators | text_preprocessing.py:135-140 | a blanked word leaves its separator behind: the length is the kept words plus one space per gap |
| EarlierStages.StopwordsRemovedBlank | text_preprocessing.py:131-140 | a blank text becomes empty |
| EarlierStages.StopwordsRemovedExample | text_preprocessing.py:131-140 | with `the` a stopword, `"the cat"` becomes `" cat"` (the separator survives) |
| EarlierStages.Tokenise | text_preprocessing.py:143-148 | every kept token is alphanumeric |
| EarlierStages.TokeniseKeepsAlnumTokens | text_preprocessing.py:143-148 | a token is kept exactly when the tokenizer produced it and it is alphanumeric |
| EarlierStages.ProcessesFront | text_preprocessing.py:158-159 | the first four stages compute punctuation removal after demojizing after URL removal after lowering |
| EarlierStages.ProcessesBack | text_preprocessing.py:158-161 | the last five stages compute stemming after tokenising after stopword removal after correction after chat conversion |
| EarlierStages.ProcessesCompose | text_preprocessing.py:157-161 | running `PROCESSES` stage by stage never raises on a text and yields the composition written out |
| EarlierStages.CleanEmpty | text_preprocessing.py:157-161 | when the libraries map empty input to empty output, the empty comment cleans to the empty string |
| LaterStages.PatternMatchesIff | src/text_preprocessing.py:82 | the effective `pattern` matches exactly when some prefix is all ASCII alphanumerics up to the end or a final newline |
| LaterStages.AnchoredSub | src/text_preprocessing.py:82 | substituting the anchored pattern deletes the matched prefix, leaves an unmatched text unchanged, and can only leave the text, `""` or `"\n"` |
| LaterStages.ShadowedStagesDeleteSingleWord | src/text_preprocessing.py:74-82 | a one-word ASCII text is deleted by both `remove_url` and `remove_stopwords`, whatever the word |
| LaterStages.ShadowedStagesDeleteOrdinaryWord | src/text_preprocessing.py:74-82 | `great`, neither a URL nor a stopword, is deleted by both stages |
| LaterStages.ShadowedStagesKeepEverythingElse | src/text_preprocessing.py:10-15 | a URL inside a longer text, and stopwords inside one, are kept |
| LaterStages.TranslateChar | src/text_preprocessing.py:18-29 | a replacement holds no character the table would replace again; only the ellipsis widens (to three characters) |
| LaterStages.Translate | src/text_preprocessing.py:30-35 | the result holds no replaceable character and grows by two characters per ellipsis |
| LaterStages.TranslateAppend | src/text_preprocessing.py:35 | translation is character by character: it distributes over concatenation |
| LaterStages.TranslateIdempotent | src/text_preprocessing.py:30-35 | translating twice equals translating once |
| LaterStages.RunsFlatten | src/text_preprocessing.py:66 | the word and non-word runs that `\b` separates concatenate back to the text |
| LaterStages.RunsMaximal | src/text_preprocessing.py:66 | every run is non-empty and of one class, neighbouring runs differ in class, and the first run starts the text |
| LaterStages.RunsAtBoundary | src/text_preprocessing.py:66 | where a word boundary falls between two texts, their runs concatenate |
| LaterStages.ReplaceWithoutKey | src/text_preprocessing.py:66-71 | a text with no abbreviation among its words is unchanged |
| LaterStages.WholeWordReplacement | src/text_preprocessing.py:66-71 | a whole word between non-word neighbours is replaced by its expansion, or kept if it is not a key, and its surroundings convert independently |
| LaterStages.SeparatorKept | src/text_preprocessing.py:66-71 | a text without word characters is unchanged |
| LaterStages.ChatWordsLookups | src/text_preprocessing.py:45-65 | the keys are lower case: `lol` is a key, `LOL` and `you` are not |
| LaterStages.ChatConversionWholeWordsOnly | src/text_preprocessing.py:66-71 | `lol` expands; `LOL` is kept (lookup is case-sensitive); the `u` inside `you` is not replaced |
| LaterStages.ChatConversionExamples | src/text_preprocessing.py:64-71 | `u` becomes `you` and `rn!` becomes `right now!` |
| LaterStages.ChatScenario | src/text_preprocessing.py:100-102 | `u rn!!` after lowering and punctuation removal converts to `you right now  ` |
| LaterStages.UnknownWordLookups | src/text_preprocessing.py:45-65 | `u` and `gr8` are keys; `r` is not |
| LaterStages.ChatScenarioUnknownWord | src/text_preprocessing.py:100-102 | `u r gr8!!` after lowering, punctuation removal and chat conversion becomes `you r great!  `: `r` is kept, since it is not a key |
| LaterStages.Tokenise | src/text_preprocessing.py:83-89 | every kept token matches the effective `pattern` |
| LaterStages.TokeniseKeepsMatchingTokens | src/text_preprocessing.py:83-89 | a token is kept exactly when the tokenizer produced it and the pattern matches it |
| LaterStages.ProcessesFront | src/text_preprocessing.py:100-101 | the first five stages compute punctuation removal after normalisation after demojizing after URL removal after lowering |
| LaterStages.ProcessesBack | src/text_preprocessing.py:100-102 | the last four stages compute stemming after tokenising after stopword removal after chat conversion |
| LaterStages.ProcessesCompose | src/text_preprocessing.py:99-103 | running `PROCESSES` stage by stage never raises on a text and yields the composition written out |
| LaterStages.CleanEmpty | src/text_preprocessing.py:99-103 | when the libraries map empty input to empty output, the empty comment cleans to the empty string |
| Pipeline.RunStagesAppend | src/main.py:17-18 | running two stage lists one after the other equals running their concatenation, and a failure stops the run |
| Pipeline.RunStagesPrefix | src/main.py:17-18 | if the whole run succeeds, every prefix of it succeeds |
| Pipeline.RunStagesTrace | src/main.py:17-18 | a chain of successful single steps makes a successful run ending in the last cell |
| Driver.Frame.Read | src/main.py:31-40 | one row per saved comment, keeping `like_count` and the text as `pre_clean`, with `post_clean` a copy of `pre_clean` |
| Driver.ApplyColumn | src/main.py:18 | `apply` succeeds exactly when the stage succeeds on every cell, rewrites only `post_clean` and keeps the row order |
| Driver.FoldRows | src/main.py:17-18 | applying stage after stage to the column succeeds exactly when every row's stage run succeeds, and then each row holds its own run's result |
| Driver.ColumnThenRows | src/main.py:17-18 | one more column-wide stage extends the fold by that stage |
| Driver.PrefixFailure | src/main.py:17-18 | if all stages succeed on the frame, so does every prefix of them |
| Driver.PreprocessDataframe | src/main.py:16-19 | the in-place loop leaves exactly the folded rows, changing only `post_clean`, and reports failure exactly when some stage would raise |
| Driver.CleanRowsOfText | src/main.py:16-19 | on text cells the cleaning always succeeds and each row's `post_clean` is its cleaned text |
| Driver.FoldRowsAppend | src/main.py:49 | cleaning concatenated frames equals concatenating the cleaned frames, and succeeds exactly when both do |
| Driver.TotalIsProduct | src/main.py:43 | the section sizes add up to `n * q + extras` |
| Driver.Sections | src/main.py:43 | the split has `n` sections and they concatenate back to the rows |
| Driver.SectionSizes | src/main.py:43 | section `j` has `q + 1` rows for the first `extras` sections and `q` after |
| Driver.ArraySplit | src/main.py:42-43 | `np.array_split` gives `num_partitions` contiguous sections that concatenate back to the frame |
| Driver.ArraySplitSizes | src/main.py:43 | section `j` has `len / n` rows, plus one for the first `len % n` sections |
| Driver.SectionStep | src/main.py:49 | cleaning one more section extends the cleaned prefix by that section's cleaned rows |
| Driver.ReadThenClean | src/main.py:31-49 | cleaning the frame as read keeps its length, and each row becomes (like count, original text, cleaned text) |
| Driver.ProcessData | src/main.py:40-49 | split, clean each section in turn and concatenate: the result has one row per comment, in order, with `post_clean` the cleaned text and `like_count` and `pre_clean` kept, whatever the number of partitions |
| Reporting.InsertKey | src/main.py:104 | inserting a key keeps the keys ascending and adds exactly that key |
| Reporting.GroupKeys | src/main.py:104 | the group keys are ascending and are exactly the values present |
| Reporting.ClusterIds | src/main.py:104 | the listed keys are exactly the non-missing cluster values |
| Reporting.Clusters | src/main.py:116 | `groupby('cluster')` keys: strictly ascending, and exactly the clusters some row has (rows with a missing cluster are dropped) |
| Reporting.ClusterTexts | src/main.py:104 | a cluster's texts come from rows of that cluster with a `post_clean`, and every such text is among them |
| Reporting.DropNaKeepsTexts | src/main.py:103 | `dropna` on `post_clean` changes no cluster's list of texts |
| Reporting.PostedRows | src/main.py:103-104 | a cluster has a group after `dropna` exactly when one of its rows has a `post_clean` |
| Reporting.WordCloudsOfRows | src/main.py:103-109 | the clouds come in ascending cluster order, one per cluster with a non-missing text, and each cloud's words are the words of that cluster's texts in row order |
| Reporting.TotalsFor | src/main.py:116-119 | one total per key, in key order |
| Reporting.TotalsForRows | src/main.py:116-119 | each key's `total_likes` is the sum of the like counts of its rows (NaN skipped), and its `total_comments` counts its non-missing like counts |
| Reporting.PlotTotalsOfRows | src/main.py:116-119 | the bar-graph table has one row per cluster key, in ascending order, with those sums and counts |
| Reporting.SumInSplit | src/main.py:117 | a sum over a set of clusters splits off one more cluster |
| Reporting.SumInAll | src/main.py:120 | a sum over a set of clusters that covers every row equals the sum over all rows |
| Reporting.PerKeySum | src/main.py:116-119 | adding the per-cluster sums over distinct keys gives the sum over their union |
| Reporting.EmptyKeys | src/main.py:116-119 | no cluster selects no row |
| Reporting.TotalsColumns | src/main.py:116-119 | a column total of the table adds the per-key sums |
| Reporting.TotalsAddUp | src/main.py:116-121 | when every row has a cluster, the clusters' `total_likes` add up to `df['like_count'].sum()` and their `total_comments` to the non-missing count |
| Reporting.CommentsAddUp | src/main.py:118-121 | when no cluster or like count is missing, the clusters' `total_comments` add up to `len(df)`, the percentage denominator |
| Reporting.CountAll | src/main.py:121 | with no missing like count, the count of like counts is the number of rows |
| YouTubeApi.CheckArgs | src/comments-extractor/yt-comments-extractor.py:11-13 | the call proceeds exactly when `videoID` is a string and `max_results` an int in [1, 100]; the first failing assertion is reported |
| YouTubeApi.Respond | src/comments-extractor/yt-comments-extractor.py:25-30 | request `k` is answered with page `k` exactly when the script has that page and does not fail there |
| YouTubeApi.Received | src/comments-extractor/yt-comments-extractor.py:39-48 | whatever the run receives is a stretch of the script's pages |
| YouTubeApi.RequestsFor | src/comments-extractor/yt-comments-extractor.py:25-48 | every request names the video and `max_results`; the first carries no token and each later one carries the previous page's `nextPageToken` |
| YouTubeApi.YouTube.constructor | src/comments-extractor/yt-comments-extractor.py:15-19 | a new client over the script has made no requests |
| YouTubeApi.YouTube.List | src/comments-extractor/yt-comments-extractor.py:42-48 | one request is recorded and answered by the script according to how many came before |
| YouTubeApi.ReceivedAfter | src/comments-extractor/yt-comments-extractor.py:39-48 | successful pages with tokens add one page each to what the run receives |
| YouTubeApi.FailureKeepsEarlierPages | src/comments-extractor/yt-comments-extractor.py:55-56 | an `HttpError` at request `f` keeps the `f` pages received before it and ends the run |
| YouTubeApi.StopsAtLastPage | src/comments-extractor/yt-comments-extractor.py:39 | without an error the run receives every page up to and including the first one without a token, and stops there |
| YouTubeApi.RunEnds | src/comments-extractor/yt-comments-extractor.py:39-56 | the number of requests is the pages received, plus one exactly when the run ended in an error |
| YouTubeApi.RequestsSnoc | src/comments-extractor/yt-comments-extractor.py:40-48 | a follow-up request with the last page's token extends the request list |
| CommentsExtractor.PairsOfMembers | src/comments-extractor/yt-comments-extractor.py:33-36 | a pair is collected exactly when some received page has an item with that like count and text |
| CommentsExtractor.PairsOfSnoc | src/comments-extractor/yt-comments-extractor.py:50-53 | one more page adds its items' pairs to the set |
| CommentsExtractor.AddPairs | src/comments-extractor/yt-comments-extractor.py:33-36 | the inner loop adds exactly the page's pairs to the set |
| CommentsExtractor.Enumerate | src/comments-extractor/yt-comments-extractor.py:58-59 | the dict has keys `"0"` to `str(n-1)` for the `n` distinct pairs, holds each pair under exactly one key, and holds nothing else |
| CommentsExtractor.NumberedKeys | src/comments-extractor/yt-comments-extractor.py:58-59 | key `str(j)` holds the `j`-th enumerated pair, and there are no other keys |
| CommentsExtractor.IndexedByOrder | src/comments-extractor/yt-comments-extractor.py:58-59 | numbering a duplicate-free listing of the set gives a numbering of the set |
| CommentsExtractor.CollectPairs | src/comments-extractor/yt-comments-extractor.py:21-56 | the `try` block collects exactly the pairs of the pages received before the run stopped, with one request per page received plus one for an error |
| CommentsExtractor.GetVideoComments | src/comments-extractor/yt-comments-extractor.py:10-60 | bad arguments fail their assertion before any request; otherwise the result numbers exactly the distinct pairs received, partial results surviving an `HttpError` |
| CommentsExtractor.RunMain | src/comments-extractor/yt-comments-extractor.py:73 | with `max_results` = 100 the call always passes its assertions and numbers the pairs received |
| CommentsExtractor.PairsCollapseOnlyIdentical | src/comments-extractor/yt-comments-extractor.py:36 | only identical pairs merge: the same text with a different like count is kept twice |
| CommentScraper.TextsOfSnoc | comment-scraper/yt-comment-extractor.py:47-49 | one more page adds its items' texts to the set |
| CommentScraper.TextsOfPairs | comment-scraper/yt-comment-extractor.py:31-33 | the texts this extractor keeps are exactly the texts of the pairs the newer extractor keeps |
| CommentScraper.TextsCollapse | comment-scraper/yt-comment-extractor.py:33 | a text repeated with different like counts is kept once |
| CommentScraper.AddTexts | comment-scraper/yt-comment-extractor.py:31-33 | the inner loop adds exactly the page's texts to the set |
| CommentScraper.CollectTexts | comment-scraper/yt-comment-extractor.py:19-52 | the `try` block collects exactly the texts of the pages received before the run stopped, with one request per page received plus one for an error |
| CommentScraper.ToTuple | comment-scraper/yt-comment-extractor.py:54 | the tuple holds every element of the set exactly once |
| CommentScraper.GetVideoComments | comment-scraper/yt-comment-extractor.py:8-54 | bad arguments fail their assertion before any request; otherwise the tuple holds each distinct received text exactly once |
| CommentScraper.RunMain | comment-scraper/yt-comment-extractor.py:60-65 | with the fixed video id and `MAX_RESULTS`, every request is for that video and the tuple holds each received text once |

## Left out

- The text libraries (emoji `demojize`, `unicodedata.normalize('NFKD')`, the spaCy `en_core_web_sm` tokenizer, the Porter stemmer, TextBlob correction, NLTK's English stopword list, Python's case mapping and `isalnum` outside ASCII) are fields of `Toolkit`, not models of their own. Properties that depend on them take their behaviour as a hypothesis.
- The first URL expression at src/text_preprocessing.py:10 is not modelled, because the name it is bound to is rebound before `remove_url` ever runs. The stopword alternation at src/text_preprocessing.py:74 is left out for the same reason.
- Nlp.Lower: lowering is modelled character by character, with the toolkit mapping each non-ASCII character on its own. Python's context-dependent rule for the final Greek sigma (`"ΑΣ".lower() == "ας"` but `"ΣΑ".lower() == "σα"`) cannot be expressed. `Nlp.LowerIdempotent` therefore takes the toolkit's lower case of each non-ASCII character being lower case as a hypothesis.
- `\w` and `\b` in src/text_preprocessing.py:66 are modelled as ASCII letters, digits and `_`, plus whatever `Toolkit` calls alphanumeric outside ASCII. Unicode digit and letter categories are not spelled out.
- TF-IDF feature extraction, k-means clustering and the cluster-count heuristic (src/main.py:60-76) are floating-point library work. Cluster numbers enter the reporting model as data.
- The multiprocessing pool (src/main.py:46-53) runs sections in parallel. Only its sequential meaning is modelled: each section cleaned in turn, results concatenated in section order. `cpu_count()` is a parameter.
- The pandas I/O is not modelled: `read_json` (row order taken as the key order of the file), `to_csv`/`read_csv`, the axis-1 concatenation with the TF-IDF columns and its index alignment.
- Plotting is not modelled: `WordCloud`, `matplotlib`, the bar positions, the log scale and the percentage labels. The percentage denominators are modelled as sums (`Reporting.TotalsAddUp`, `Reporting.CommentsAddUp`).
- The root `main.py` is not part of this model.
- Argument parsing, console output, `input`, `save_to_json`/`dump`, the `API_KEY` import and `build` are left out. `build` is modelled only as a fresh `YouTube` client over the page script.
- YouTubeApi.Respond: a request past the end of the page script fails like an `HttpError`. The model therefore cannot express an endless sequence of pages with tokens.
- A malformed API item (a missing `snippet` key, which raises `KeyError` and escapes the `try`) is not modelled: every item carries a like count and a text.
- YouTubeApi.CheckArgs: `bool` values (a subclass of `int` in Python) are not distinguished from ints. The default `max_results=20` is not modelled, because every caller passes the value.
- CommentsExtractor.Enumerate and CommentScraper.ToTuple may list the set in any order: Python's set iteration order is not modelled.
- Driver.PreprocessDataframe: when a stage would raise, the model reports failure and says nothing about the partially updated frame.
- The network-facing `googleapiclient` request objects (`part='snippet'`, `textFormat='plainText'`) are fixed arguments and are not modelled.
