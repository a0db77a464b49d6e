# Article Forge: the article page and the generate-article edge function

This project models the two pieces of the Article Forge site that have behaviour:

- **The article generator page** (`src/pages/AI4s.tsx`). It does four things:
  - It keeps the topic, author and previous-blog fields.
  - It has a busy flag, the last generated article and a "copied" flag.
  - It sends a generation request. It stores the answer and records it in the datastore.
  - It copies the article. It exports the article as HTML or Markdown, named after a slug of the topic.
- **The `generate-article` edge function** (`supabase/functions/generate-article/index.ts`). It answers the CORS preflight and checks the two required fields. It returns a fixed HTML article with the topic, author and date filled in, plus five suggested titles. Anything that throws becomes a 500 answer. It calls no text-generation service.

Strings are JavaScript strings, that is, sequences of UTF-16 code units (`JsString.Str`). A source literal becomes a string through `JsString.Utf16`, which encodes characters beyond the Basic Multilingual Plane as surrogate pairs, or through `JsString.Units`, one code unit per character, for literals that have no such character.

The modules are:

- `JsString` holds the string operations the code uses:
  - `toLowerCase` on ASCII;
  - `trim` with the ECMAScript white-space set;
  - unanchored substring search;
  - joining parts.
- `ExportName` is the download-name slug.
- `MarkdownExport` is the element-tree walk and the `forEach` loop that builds the Markdown.
- `GenerateArticle` is the handler, as a total function from the request method, the parsed body and the formatted date to a response.
- `ArticlePage` is the page. It is a class whose fields are the component's state and whose methods are its handlers.
- `EndToEnd` ties the two pieces together:
  - the JSON the page posts;
  - the reply it reads back;
  - one click on "Generate" answered by the handler.

`handleGenerate` is split at its `await fetch` into two methods:

- `StartGenerate` covers the validation, turning busy, clearing the old article and building the request.
- `FinishGenerate` takes the fetch and insert outcomes and covers the rest.

The second method uses the request built by the first. This is the value the async closure captured, so later edits to the fields do not affect it.

The page's two `alert` messages are the values of `ArticlePage.Alert`; `ArticlePage.AlertText` gives their text.

The handler takes the long fixed passages of the article as a parameter (`GenerateArticle.ArticleText`). The text the function ships is the constant `GenerateArticle.MockArticle`, transcribed from `index.ts:38-156`. Every property of the handler below holds for any such text, so it holds for the shipped one too. No proof names `MockArticle` itself. `JsString.Utf16Append` and `JsString.UnitsAreUtf16` only justify how the literals are encoded, and no other proof uses them.

## Model

| member | source | states |
|---|---|---|
| JsString.Trim | src/pages/AI4s.tsx:69 | a non-empty result of `s.trim()` neither starts nor ends with white space |
| JsString.TrimEmptyIffBlank | src/pages/AI4s.tsx:69 | `s.trim()` is empty exactly when `s` is all white space (both directions) |
| JsString.TrimStart | src/pages/AI4s.tsx:69 | dropping leading white space never lengthens the string and leaves no leading white space |
| JsString.TrimStartDropsBlank | src/pages/AI4s.tsx:69 | what is kept is a suffix of the input, and everything dropped before it is white space |
| JsString.TrimEnd | src/pages/AI4s.tsx:69 | dropping trailing white space never lengthens the string and leaves no trailing white space |
| JsString.TrimEndDropsBlank | src/pages/AI4s.tsx:69 | what is kept is a prefix of the input, and everything dropped after it is white space |
| JsString.TrimIsInfix | src/pages/AI4s.tsx:89 | what `trim` keeps is one contiguous piece of the input with only white space on either side |
| JsString.TrimIdempotent | src/pages/AI4s.tsx:89 | trimming twice is trimming once |
| JsString.HasInfixIffContains | src/pages/AI4s.tsx:52 | the left-to-right scan used for an unanchored regular-expression word finds the word exactly when it occurs somewhere |
| JsString.ConcatAppend | src/pages/AI4s.tsx:44-55 | joining parts distributes over splitting the list of parts (the `+=` loop is a join) |
| JsString.ConcatIsAt | supabase/functions/generate-article/index.ts:38-156 | a run of consecutive parts of a template occurs in the whole, right after the parts before it |
| JsString.EncodeChar | supabase/functions/generate-article/index.ts:85 | a character is one UTF-16 code unit inside the Basic Multilingual Plane and a pair outside it (the `💡` of the case-study heading) |
| JsString.Utf16Append | supabase/functions/generate-article/index.ts:38-156 | encoding a template literal piece by piece gives the encoding of the whole literal |
| JsString.UnitsAreUtf16 | supabase/functions/generate-article/index.ts:158-164 | a literal with no character beyond the Basic Multilingual Plane is one code unit per character, as UTF-16 encodes it |
| ExportName.SlugAt | src/pages/AI4s.tsx:32 | each position of the slug is the topic's ASCII letter (lowered) or digit, or one `-` for any other code unit; same length as the topic |
| ExportName.SlugCharset | src/pages/AI4s.tsx:32 | every code unit of the slug is a lower-case ASCII letter, an ASCII digit or `-`, and the slug is exactly as long as the topic |
| ExportName.SlugIdempotent | src/pages/AI4s.tsx:32 | slugging a slug returns it unchanged |
| ExportName.SlugFixedPoints | src/pages/AI4s.tsx:32 | a string is its own slug exactly when it consists only of slug code units |
| ExportName.SlugExample | src/pages/AI4s.tsx:32 | "AI & the Future!" becomes "ai---the-future-": no collapsing of runs, no trimming |
| ExportName.FileNamesShareSlug | src/pages/AI4s.tsx:32-61 | the HTML and Markdown file names use the same slug expression and differ only in `.html`/`.md` |
| MarkdownExport.AppendFragment | src/pages/AI4s.tsx:46-54 | one pass of the `forEach` callback: the if-chain appends exactly the visited element's fragment to the text so far |
| MarkdownExport.BuildMarkdown | src/pages/AI4s.tsx:44-55 | the `forEach` loop, with its if-chain on the lower-cased tag name, yields the join of each visited element's fragment in visiting order |
| MarkdownExport.WalkAppend | src/pages/AI4s.tsx:45 | document order: walking two runs of siblings walks the first, then the second |
| MarkdownExport.ExportAppend | src/pages/AI4s.tsx:45-55 | the export of a run of siblings is the export of each sibling, joined in order |
| MarkdownExport.ExportText | src/pages/AI4s.tsx:45 | a text node is not an element and contributes nothing by itself |
| MarkdownExport.ExportElement | src/pages/AI4s.tsx:45-55 | pre-order: an element contributes its own fragment, then its descendants' export with itself as parent |
| MarkdownExport.ExportParentOnlyGuardsParagraphs | src/pages/AI4s.tsx:52 | the parent's tag name matters only through whether it matches the pattern `LI`, `UL` or `OL` (unanchored) |
| MarkdownExport.TransparentElement | src/pages/AI4s.tsx:48-55 | an element with none of the six tags, matching the pattern `LI`, `UL` or `OL` (unanchored) exactly when its parent does, exports exactly what its children would |
| MarkdownExport.FragmentOfHeadings | src/pages/AI4s.tsx:49-51 | `h1`/`h2`/`h3` give `# `/`## `/`### `, the element's text and a blank line |
| MarkdownExport.FragmentOfParagraph | src/pages/AI4s.tsx:52 | `p` gives its text and a blank line unless the parent's tag name matches the pattern `LI`, `UL` or `OL` (unanchored), in which case it gives nothing |
| MarkdownExport.FragmentOfListItem | src/pages/AI4s.tsx:53 | `li` gives `- `, its text and a newline |
| MarkdownExport.FragmentOfStrong | src/pages/AI4s.tsx:54 | `strong` gives its text between `**` with no newline |
| MarkdownExport.FragmentOfOtherTags | src/pages/AI4s.tsx:48-55 | every other tag contributes nothing |
| MarkdownExport.FragmentOfListContainers | src/pages/AI4s.tsx:48-55 | `ul` and `ol` themselves contribute nothing |
| MarkdownExport.ListTagNames | src/pages/AI4s.tsx:52 | the wrapper `DIV` does not match the pattern `LI`, `UL` or `OL` (unanchored); `UL`, `OL` and `LI` do |
| MarkdownExport.ExportLeaf | src/pages/AI4s.tsx:45-55 | an element holding only text exports exactly its own fragment |
| MarkdownExport.ExampleHeading | src/pages/AI4s.tsx:49 | directly under the wrapper, an `h1` holding text gives one heading line |
| MarkdownExport.ExampleParagraph | src/pages/AI4s.tsx:52 | directly under the wrapper, a `p` holding text gives the text and a blank line |
| MarkdownExport.ExampleList | src/pages/AI4s.tsx:52-53 | a `ul` holding one `li` gives one bullet line; the `ul` itself adds nothing |
| MarkdownExport.ExampleHeadingParagraphList | src/pages/AI4s.tsx:44-55 | `h1`, `p`, `ul > li` give the heading, the paragraph and the list item, in order |
| MarkdownExport.ExampleNestedStrong | src/pages/AI4s.tsx:45-55 | text in a `strong` inside an `h1` is emitted twice: in the heading and again in bold |
| MarkdownExport.ExampleParagraphInListItem | src/pages/AI4s.tsx:52-53 | a `p` inside an `li` is emitted only through the list item |
| MarkdownExport.ExampleParagraphInCustomList | src/pages/AI4s.tsx:52 | a `p` whose parent is named `X-LIST` is dropped, because the unanchored pattern finds `LI` in it |
| GenerateArticle.StyleAnalysis | supabase/functions/generate-article/index.ts:34-36 | empty for a falsy `previousBlog`; otherwise the lead sentence plus at most the first 1000 code units of `previousBlog`, all of it when shorter; a truthy non-string throws |
| GenerateArticle.SuggestedTopics | supabase/functions/generate-article/index.ts:158-164 | exactly five suggestions |
| GenerateArticle.SuggestionsContainTopic | supabase/functions/generate-article/index.ts:158-164 | each of the five suggestions contains the topic verbatim |
| GenerateArticle.Handle | supabase/functions/generate-article/index.ts:13-186 | total, for any fixed article text;  the status is 200, 400 or 500; OPTIONS gives 200, no body and exactly the CORS headers; any other method gets the CORS headers plus `Content-Type: application/json` and a body |
| GenerateArticle.MethodsOtherThanOptionsAlike | supabase/functions/generate-article/index.ts:14 | methods other than OPTIONS are not distinguished |
| GenerateArticle.MissingFieldsRejected | supabase/functions/generate-article/index.ts:24-31 | 400 exactly when the body was read and `topic` or `creatorName` is falsy, with `{ error: "Topic and creator name are required" }` |
| GenerateArticle.BlankFieldsAccepted | supabase/functions/generate-article/index.ts:24 | any non-empty white-space-only `topic` and `creatorName` get a 200 answer, whatever `previousBlog` is as long as it does not throw: there is no trimming |
| GenerateArticle.FailuresBecomeServerErrors | supabase/functions/generate-article/index.ts:21-184 | 500 exactly when something in the `try` throws (unreadable or `null` body, non-string `previousBlog`, non-string `topic`, unprintable author), and every such answer is `{ error: "Failed to generate article" }` |
| GenerateArticle.SuccessCarriesArticle | supabase/functions/generate-article/index.ts:166-175 | a 200 answer to a non-OPTIONS request comes from a string topic and a printable author, and carries the article and the five suggestions for them |
| GenerateArticle.StyleReferenceUnused | supabase/functions/generate-article/index.ts:34-36 | the style reference never reaches the response: requests differing only in `previousBlog` get the same answer when both or neither throw |
| GenerateArticle.ContentEmbedsFields | supabase/functions/generate-article/index.ts:38-156 | the article has the topic inside the `h1`, `By <author> • <date>` in the byline, and the lower-cased topic in two separate `<strong>` elements, with no escaping |
| GenerateArticle.HeadingInContent | supabase/functions/generate-article/index.ts:40 | the topic appears inside the `h1` markup of the article |
| GenerateArticle.BylineInContent | supabase/functions/generate-article/index.ts:41 | `By <author> • <date>` appears in the article |
| GenerateArticle.StrongsInContent | supabase/functions/generate-article/index.ts:47-146 | the lower-cased topic appears in two `<strong>` elements, the second after the end of the first |
| ArticlePage.NullIfBlank | src/pages/AI4s.tsx:89 | `previousBlog.trim()`, or null when that is empty: null exactly when the text is all white space, and otherwise the non-empty trimmed text |
| ArticlePage.NullIfBlankKeepsText | src/pages/AI4s.tsx:105 | the kept previous blog is a piece of the typed text, and keeping it again changes nothing |
| ArticlePage.ArticlePage.constructor | src/pages/AI4s.tsx:12-17 | the page starts with empty fields, idle, with no article and not copied |
| ArticlePage.ArticlePage.SetTopic | src/pages/AI4s.tsx:147 | typing sets the topic and nothing else |
| ArticlePage.ArticlePage.SetCreatorName | src/pages/AI4s.tsx:160 | typing sets the author and nothing else |
| ArticlePage.ArticlePage.SetPreviousBlog | src/pages/AI4s.tsx:172 | typing sets the previous blog and nothing else |
| ArticlePage.ArticlePage.ChooseSuggestion | src/pages/AI4s.tsx:292 | clicking a suggested title makes it the topic and changes nothing else |
| ArticlePage.ArticlePage.CopyToClipboard | src/pages/AI4s.tsx:19-24 | with no article nothing happens; otherwise the article's HTML goes to the clipboard and `copied` is set |
| ArticlePage.ArticlePage.ExportHtml | src/pages/AI4s.tsx:26-37 | with no article nothing happens; otherwise the article's HTML is offered as `text/html`, named slug + `.html` |
| ArticlePage.ArticlePage.ExportMarkdown | src/pages/AI4s.tsx:39-66 | with no article nothing happens; otherwise the Markdown of the parsed article is offered as `text/markdown`, named slug + `.md` |
| ArticlePage.ArticlePage.StartGenerate | src/pages/AI4s.tsx:69-92 | a blank topic or author alerts and changes nothing; otherwise the page turns busy, forgets the old article, and sends the topic and author untrimmed with the trimmed previous blog or null |
| ArticlePage.ArticlePage.FinishGenerate | src/pages/AI4s.tsx:94-112 | `loading` is false on every exit; the row is inserted only after an ok article reply has been stored, with the request's fields; every failure, including a rejected insert, gives the failure alert |
| EndToEnd.RequestBody | src/pages/AI4s.tsx:86-90 | the posted JSON reaches the handler as two strings and a string-or-null `previousBlog` |
| EndToEnd.ArticlePayloadRoundTrip | supabase/functions/generate-article/index.ts:166-170 | the page reads back exactly the `{ content, suggestedTopics }` the handler sends, and nothing else parses as an article |
| EndToEnd.ReplyOf | src/pages/AI4s.tsx:94-98 | a response with a non-2xx status is not ok, and its body is not read |
| EndToEnd.PageRequestsSucceed | supabase/functions/generate-article/index.ts:24-36 | every request the page sends passes the handler's checks and gets 200 with the article for the topic and author as typed |
| EndToEnd.PageReadsArticle | src/pages/AI4s.tsx:94-100 | the page's `fetch` sees the handler's answer to any request it sends as an ok reply holding the article and the suggestions for its topic |
| EndToEnd.GenerateWithHandler | src/pages/AI4s.tsx:68-113 | one click answered by the handler: blank fields only alert; otherwise the page ends idle, showing the article for the fields it had when clicked, and records it with the trimmed previous blog |

## Left out

- JSX rendering, Tailwind classes, icons and the animated background: they are markup with no behaviour.
- The portfolio pages and components, the project data and the type declarations: they are static content. The navigation page-name mismatch in `src/App.tsx` is not part of this model.
- Browser I/O is left out: the clipboard write, `Blob`, object URLs, the anchor click, `alert` and `console.error`. Instead, the methods return what would be written, offered or alerted.
- The two-second timer that clears `copied` is left out, because it is timer-driven and asynchronous. So `copied`, once set, stays set in the model.
- The `disabled={loading}` attribute on the Generate button is left out, because it is rendering. `StartGenerate` does not itself check `loading`, and neither does `handleGenerate`.
- `fetch`, the Supabase `insert` and `Deno.serve` are network and datastore I/O. Their results are abstract outcomes passed in (`FetchOutcome`, `InsertOutcome`). The endpoint URL, the anon key and the request headers are not modelled.
- HTML parsing (`innerHTML`) is not modelled. `ExportMarkdown` takes the parser as a function parameter, and `querySelectorAll('*')` is modelled by the walk `MarkdownExport.Walk`.
- `req.json()` parsing is not modelled: the handler receives the parsed body or the parse failure (`GenerateArticle.Body`).
- `JSON.stringify` of response bodies is not modelled: they are kept as structured `GenerateArticle.Json` values.
- `new Date().toLocaleDateString(...)` depends on the clock and the locale, so the formatted date is a parameter.
- GenerateArticle.MockArticle: no lemma is applied to the shipped text itself, because a proof that mentions the long literal runs out of solver resources. The handler's properties are proved for every `ArticleText`, and the shipped text is one.
- JsString.Units: a character beyond the Basic Multilingual Plane would become U+FFFD instead of a surrogate pair. It is only applied to literals without such characters (`JsString.UnitsAreUtf16`); the long article passages, which hold the one such character, are encoded with `JsString.Utf16`.
- GenerateArticle.LowerCaseOf: `topic.toLowerCase()` is modelled as ASCII lowering. It differs from JavaScript for non-ASCII letters of the topic, such as `É`. The slug lowers only what `[^a-z0-9]` with the `i` flag keeps, and those are ASCII letters and digits, so it is exact. The tag-name comparisons are exact as well: JavaScript also lowers non-ASCII letters of a tag name, but no non-ASCII code unit lowers to one of the letters or digits of `h1`, `h2`, `h3`, `p`, `li` or `strong` (U+0130 lowers to two code units), so the six comparisons give the same answer.
- GenerateArticle.Value: a non-string, non-null property value is abstracted to its truthiness and its printed text (or a throw). Numbers, arrays and objects are not modelled in detail.
- ArticlePage.ArticlePage.FinishGenerate: an ok reply whose JSON is neither `null` nor an article object is not represented: `ReplyData` has no case for it. The handler never sends one to a POST (see `EndToEnd.ReplyOf`).
- EndToEnd.ParseArticle reads the handler's payload shape with the two members in order. JSON member order does not matter to the page, and the handler always sends them in this order.
