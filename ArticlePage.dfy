/** The article generator page: the state the page keeps between renders and
    the handlers that change it or hand a file to the browser. The input
    fields, the busy flag, the last generated article and the "copied" flag
    are fields of one object; each handler is a method. The clipboard, the
    download anchor, `alert`, `fetch` and the datastore are outside the model:
    what the page would write to them is returned, and what they answer is
    passed in. */
module ArticlePage {
  import opened JsString
  import opened Wrappers
  import opened ExportName
  import opened MarkdownExport

  /** The JSON the generation endpoint answers with on success. */
  datatype GeneratedContent = GeneratedContent(content: Str, suggestedTopics: seq<Str>)

  /** A file offered for download: its name, its MIME type and its text. */
  datatype Download = Download(name: Str, mimeType: Str, body: Str)

  /** The JSON body posted to the endpoint; `previousBlog` None is `null`. */
  datatype ArticleRequest = ArticleRequest(topic: Str, creatorName: Str, previousBlog: Option<Str>)

  /** What `response.json()` gives: not JSON at all (it rejects), JSON `null`,
      or an article. */
  datatype ReplyData = NotJson | JsonNull | Data(article: GeneratedContent)

  /** How the `fetch` ends: it rejects, or it resolves with `response.ok` and
      a body. */
  datatype FetchOutcome = Unreachable | Replied(ok: bool, data: ReplyData)

  /** How `await supabase.from('articles').insert(...)` ends: it stores the
      row, resolves with an error object that nobody reads, or rejects. */
  datatype InsertOutcome = Stored | Refused | Threw

  /** The row the page asks the datastore to insert. */
  datatype ArticleRecord = ArticleRecord(topic: Str, creatorName: Str, content: Str, previousBlog: Option<Str>)

  /** The two messages the page shows with `alert`. */
  datatype Alert = MissingFieldsAlert | FailureAlert

  /** The text of each message. */
  function AlertText(alert: Alert): Str
  {
    match alert
    case MissingFieldsAlert => Units("Please fill in at least the topic and creator name.")
    case FailureAlert => Units("Failed to generate article. Please try again.")
  }

  /** `s.trim() || null`: the trimmed text, or null when nothing but white
      space is left. */
  function NullIfBlank(s: Str): (r: Option<Str>)
    ensures r.None? <==> IsBlank(s)
    ensures r.Some? ==> r.value == Trim(s) && r.value != []
  {
    TrimEmptyIffBlank(s);
    var t := Trim(s);
    if t == [] then None else Some(t)
  }

  /** What is kept of the previous blog is a piece of it with only white space
      cut off around it, and keeping it again changes nothing. */
  lemma NullIfBlankKeepsText(s: Str)
    ensures NullIfBlank(s).Some? ==>
              NullIfBlank(NullIfBlank(s).value) == NullIfBlank(s)
              && exists i :: IsAt(s, NullIfBlank(s).value, i)
  {
    if NullIfBlank(s).Some? {
      TrimIdempotent(s);
      var i := TrimIsInfix(s);
      assert IsAt(s, NullIfBlank(s).value, i);
    }
  }

  class ArticlePage {
    var topic: Str
    var creatorName: Str
    var previousBlog: Str
    var loading: bool
    var generatedContent: Option<GeneratedContent>
    var copied: bool

    /** The page as first rendered: empty fields, idle, nothing generated. */
    constructor ()
      ensures topic == [] && creatorName == [] && previousBlog == []
      ensures !loading && generatedContent.None? && !copied
    {
      topic := [];
      creatorName := [];
      previousBlog := [];
      loading := false;
      generatedContent := None;
      copied := false;
    }

    /** Typing into the topic field. */
    method SetTopic(value: Str)
      modifies this
      ensures topic == value
      ensures creatorName == old(creatorName) && previousBlog == old(previousBlog)
      ensures loading == old(loading) && generatedContent == old(generatedContent) && copied == old(copied)
    {
      topic := value;
    }

    /** Typing into the author field. */
    method SetCreatorName(value: Str)
      modifies this
      ensures creatorName == value
      ensures topic == old(topic) && previousBlog == old(previousBlog)
      ensures loading == old(loading) && generatedContent == old(generatedContent) && copied == old(copied)
    {
      creatorName := value;
    }

    /** Typing into the previous-blog field. */
    method SetPreviousBlog(value: Str)
      modifies this
      ensures previousBlog == value
      ensures topic == old(topic) && creatorName == old(creatorName)
      ensures loading == old(loading) && generatedContent == old(generatedContent) && copied == old(copied)
    {
      previousBlog := value;
    }

    /** Clicking the `i`-th suggested title: it becomes the topic. The buttons
        exist only while an article with suggestions is shown. */
    method ChooseSuggestion(i: nat)
      requires generatedContent.Some? && i < |generatedContent.value.suggestedTopics|
      modifies this
      ensures topic == old(generatedContent.value.suggestedTopics[i])
      ensures creatorName == old(creatorName) && previousBlog == old(previousBlog)
      ensures loading == old(loading) && generatedContent == old(generatedContent) && copied == old(copied)
    {
      topic := generatedContent.value.suggestedTopics[i];
    }

    /** `handleCopyToClipboard`: with no article it does nothing; otherwise
        it writes the article's HTML to the clipboard (returned) and sets
        `copied`. */
    method CopyToClipboard() returns (written: Option<Str>)
      modifies this
      ensures old(generatedContent).None? ==> written.None? && copied == old(copied)
      ensures old(generatedContent).Some? ==> written == Some(old(generatedContent).value.content) && copied
      ensures topic == old(topic) && creatorName == old(creatorName) && previousBlog == old(previousBlog)
      ensures loading == old(loading) && generatedContent == old(generatedContent)
    {
      if generatedContent.None? {
        return None;
      }
      written := Some(generatedContent.value.content);
      copied := true;
    }

    /** `handleExportHTML`: with no article it does nothing; otherwise it
        offers the article's HTML as `<slug>.html`. */
    method ExportHtml() returns (file: Option<Download>)
      ensures file.None? <==> generatedContent.None?
      ensures file.Some? ==> file.value.body == generatedContent.value.content
      ensures file.Some? ==> file.value.name == Slug(topic) + Units(".html") && |file.value.name| == |topic| + 5
      ensures file.Some? ==> file.value.mimeType == Units("text/html")
    {
      if generatedContent.None? {
        return None;
      }
      var name := HtmlFileName(topic);
      file := Some(Download(name, Units("text/html"), generatedContent.value.content));
    }

    /** `handleExportMarkdown`: with no article it does nothing; otherwise it
        parses the article's HTML into the children of a fresh `div` (the
        parser is `parseHtml`), appends one fragment per element in document
        order, and offers the result as `<slug>.md`. */
    method ExportMarkdown(parseHtml: Str -> seq<Node>) returns (file: Option<Download>)
      ensures file.None? <==> generatedContent.None?
      ensures file.Some? ==> file.value.body == Markdown(parseHtml(generatedContent.value.content))
      ensures file.Some? ==> file.value.name == Slug(topic) + Units(".md") && |file.value.name| == |topic| + 3
      ensures file.Some? ==> file.value.mimeType == Units("text/markdown")
    {
      if generatedContent.None? {
        return None;
      }
      var roots := parseHtml(generatedContent.value.content);
      var markdown := BuildMarkdown(Walk(roots, WrapperTagName));
      var name := MarkdownFileName(topic);
      file := Some(Download(name, Units("text/markdown"), markdown));
    }

    /** `handleGenerate` up to the `fetch`: with a blank topic or author it
        alerts and changes nothing; otherwise the page turns busy, forgets
        the previous article, and posts the topic and author as typed with
        the trimmed previous blog (or null). */
    method StartGenerate() returns (request: Option<ArticleRequest>, alert: Option<Alert>)
      modifies this
      ensures request.None? <==> Trim(old(topic)) == [] || Trim(old(creatorName)) == []
      ensures request.None? <==> alert == Some(MissingFieldsAlert)
      ensures request.Some? ==> alert.None?
      ensures request.None? ==> loading == old(loading) && generatedContent == old(generatedContent)
      ensures request.Some? ==> loading && generatedContent.None?
      ensures request.Some? ==> request.value == ArticleRequest(topic, creatorName, NullIfBlank(previousBlog))
      ensures topic == old(topic) && creatorName == old(creatorName) && previousBlog == old(previousBlog)
      ensures copied == old(copied)
    {
      var trimmedTopic, trimmedCreator := Trim(topic), Trim(creatorName);
      if trimmedTopic == [] || trimmedCreator == [] {
        return None, Some(MissingFieldsAlert);
      }
      var sentBlog := NullIfBlank(previousBlog);
      loading := true;
      generatedContent := None;
      request := Some(ArticleRequest(topic, creatorName, sentBlog));
      alert := None;
    }

    /** `handleGenerate` after the `fetch`, for the `request` it sent: an ok
        reply whose JSON is an article is stored and then recorded (the row
        is returned); a reply that is not ok or not JSON, a rejected fetch,
        a `null` reply (reading `content` of it throws) or a rejected insert
        ends in the failure alert. The busy flag is cleared on every path. */
    method FinishGenerate(request: ArticleRequest, response: FetchOutcome, insert: InsertOutcome)
      returns (record: Option<ArticleRecord>, alert: Option<Alert>)
      modifies this
      ensures !loading
      ensures record.Some? <==> response.Replied? && response.ok && response.data.Data?
      ensures record.Some? ==>
                generatedContent == Some(response.data.article)
                && record.value == ArticleRecord(request.topic, request.creatorName,
                                                 response.data.article.content, request.previousBlog)
      ensures response.Replied? && response.ok && response.data.JsonNull? ==> generatedContent.None?
      ensures !(response.Replied? && response.ok && !response.data.NotJson?) ==> generatedContent == old(generatedContent)
      ensures alert.None? <==> record.Some? && !insert.Threw?
      ensures alert.Some? ==> alert == Some(FailureAlert)
      ensures topic == old(topic) && creatorName == old(creatorName) && previousBlog == old(previousBlog)
      ensures copied == old(copied)
    {
      record, alert := None, None;
      match response {
        case Unreachable =>
          alert := Some(FailureAlert);
        case Replied(ok, data) =>
          if !ok {
            alert := Some(FailureAlert);
          } else {
            match data {
              case NotJson =>
                alert := Some(FailureAlert);
              case JsonNull =>
                generatedContent := None;
                alert := Some(FailureAlert);
              case Data(article) =>
                generatedContent := Some(article);
                record := Some(ArticleRecord(request.topic, request.creatorName, article.content, request.previousBlog));
                if insert.Threw? {
                  alert := Some(FailureAlert);
                }
            }
          }
      }
      loading := false;
    }
  }
}
