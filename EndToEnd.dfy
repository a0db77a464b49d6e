/** The page and the edge function together: the JSON the page posts, the
    reply it reads back, and one whole run of "Generate" against the
    handler. */
module EndToEnd {
  import opened JsString
  import opened Wrappers
  import opened GenerateArticle
  import opened ArticlePage

  /** The method the page's `fetch` uses. */
  const Post: Str := Units("POST")

  /** The posted body as the handler destructures it: the two strings, and
      `previousBlog` as a string or JSON `null`. */
  function RequestBody(request: ArticleRequest): (body: Body)
    ensures body.Fields? && body.topic == JsText(request.topic) && body.creatorName == JsText(request.creatorName)
    ensures request.previousBlog.None? <==> body.previousBlog == Null
    ensures request.previousBlog.Some? ==> body.previousBlog == JsText(request.previousBlog.value)
  {
    Fields(JsText(request.topic), JsText(request.creatorName),
           match request.previousBlog
           case None => Null
           case Some(p) => JsText(p))
  }

  /** Reading `{ content, suggestedTopics }` back as the page's
      `GeneratedContent`; None for JSON of any other shape. */
  function ParseArticle(j: Json): (r: Option<GeneratedContent>)
  {
    match j
    case JObject(members) =>
      if |members| == 2
         && members[0].0 == Units("content") && members[0].1.JString?
         && members[1].0 == Units("suggestedTopics") && members[1].1.JArray?
         && (forall i :: 0 <= i < |members[1].1.items| ==> members[1].1.items[i].JString?)
      then
        var items := members[1].1.items;
        Some(GeneratedContent(members[0].1.s, seq(|items|, i requires 0 <= i < |items| => items[i].s)))
      else None
    case _ => None
  }

  /** The page reads back exactly what the handler's success payload holds,
      and nothing else parses as an article. */
  lemma ArticlePayloadRoundTrip(j: Json, g: GeneratedContent)
    ensures ParseArticle(j) == Some(g) <==> j == ArticlePayload(g.content, g.suggestedTopics)
  {
    var n := |g.suggestedTopics|;
    var items := seq(n, i requires 0 <= i < n => JString(g.suggestedTopics[i]));
    assert ArticlePayload(g.content, g.suggestedTopics)
        == JObject([(Units("content"), JString(g.content)), (Units("suggestedTopics"), JArray(items))]);
    if j == ArticlePayload(g.content, g.suggestedTopics) {
      assert seq(n, i requires 0 <= i < n => items[i].s) == g.suggestedTopics;
    }
    if ParseArticle(j) == Some(g) {
      var members := j.members;
      var got := members[1].1.items;
      assert |got| == n;
      assert got == items;
      assert members == [(Units("content"), JString(g.content)), (Units("suggestedTopics"), JArray(items))];
    }
  }

  /** What the page's `fetch` resolves to for a response of the handler:
      `ok` is a 2xx status, and the body of an ok response is read as JSON.
      None for an ok response whose JSON is not an article, which the page
      model does not represent; the handler never sends one to a POST. */
  function ReplyOf(response: Response): (r: Option<FetchOutcome>)
    ensures !(200 <= response.status < 300) ==> r == Some(Replied(false, NotJson))
  {
    if !(200 <= response.status < 300) then Some(Replied(false, NotJson))
    else match response.body
      case None => Some(Replied(true, NotJson))
      case Some(j) =>
        match ParseArticle(j)
        case Some(g) => Some(Replied(true, Data(g)))
        case None => None
  }

  /** Every request the page sends passes the handler's checks: the handler
      answers 200 with the article for the topic and author as typed. */
  lemma {:induction false} PageRequestsSucceed(request: ArticleRequest, date: Str, text: ArticleText)
    requires !IsBlank(request.topic) && !IsBlank(request.creatorName)
    requires request.previousBlog.Some? ==> request.previousBlog.value != []
    ensures Handle(Post, RequestBody(request), date, text)
         == Response(200, JsonHeaders, Some(ArticlePayload(
              Content(text, request.topic, request.creatorName, date, LowerAscii(request.topic)),
              SuggestedTopics(request.topic))))
  {
    assert Post[0] != Units("OPTIONS")[0];
    var body := RequestBody(request);
    assert request.topic != [] && request.creatorName != [];
    assert Truthy(body.topic) && Truthy(body.creatorName);
    assert StyleAnalysis(body.previousBlog).Some?;
  }

  /** The page's `fetch` sees the handler's answer to any of its requests as
      an ok reply holding the article and the suggestions for its topic. */
  lemma PageReadsArticle(request: ArticleRequest, date: Str, text: ArticleText)
    requires !IsBlank(request.topic) && !IsBlank(request.creatorName)
    requires request.previousBlog.Some? ==> request.previousBlog.value != []
    ensures ReplyOf(Handle(Post, RequestBody(request), date, text))
         == Some(Replied(true, Data(GeneratedContent(
              Content(text, request.topic, request.creatorName, date, LowerAscii(request.topic)),
              SuggestedTopics(request.topic)))))
  {
    PageRequestsSucceed(request, date, text);
    var article := GeneratedContent(
      Content(text, request.topic, request.creatorName, date, LowerAscii(request.topic)),
      SuggestedTopics(request.topic));
    ArticlePayloadRoundTrip(ArticlePayload(article.content, article.suggestedTopics), article);
  }

  /** One click on "Generate" answered by the handler: blank fields stop it
      with an alert; otherwise the page ends idle, showing the article for
      the topic and author it had when clicked, and asks the datastore to
      keep that article with the trimmed previous blog. Only a rejected
      insert raises the failure alert. */
  method GenerateWithHandler(page: ArticlePage, date: Str, text: ArticleText, insert: InsertOutcome)
    returns (record: Option<ArticleRecord>, alert: Option<Alert>)
    modifies page
    ensures IsBlank(old(page.topic)) || IsBlank(old(page.creatorName)) ==>
              record.None? && alert == Some(MissingFieldsAlert)
              && page.loading == old(page.loading) && page.generatedContent == old(page.generatedContent)
    ensures !IsBlank(old(page.topic)) && !IsBlank(old(page.creatorName)) ==>
              var article := GeneratedContent(
                Content(text, old(page.topic), old(page.creatorName), date, LowerAscii(old(page.topic))),
                SuggestedTopics(old(page.topic)));
              !page.loading
              && page.generatedContent == Some(article)
              && record == Some(ArticleRecord(old(page.topic), old(page.creatorName), article.content,
                                              NullIfBlank(old(page.previousBlog))))
              && (alert.None? <==> !insert.Threw?)
    ensures page.topic == old(page.topic) && page.creatorName == old(page.creatorName)
    ensures page.previousBlog == old(page.previousBlog) && page.copied == old(page.copied)
  {
    TrimEmptyIffBlank(page.topic);
    TrimEmptyIffBlank(page.creatorName);
    var request, startAlert := page.StartGenerate();
    if request.None? {
      return None, startAlert;
    }
    var sent := request.value;
    PageReadsArticle(sent, date, text);
    var reply := ReplyOf(Handle(Post, RequestBody(sent), date, text));
    record, alert := page.FinishGenerate(sent, reply.value, insert);
  }
}
