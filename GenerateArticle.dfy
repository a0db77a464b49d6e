/** The `generate-article` edge function: one request in, one response out.
    The handler answers a CORS preflight at once; otherwise it reads the JSON
    body, checks that `topic` and `creatorName` are truthy, builds a style
    reference from `previousBlog` that it never uses, and returns a fixed
    HTML article with the topic, the author and the date filled in, plus five
    suggested titles. Any exception inside the handler becomes a 500
    response. No text-generation service is called.

    The request method, the outcome of `req.json()` and the formatted date are
    inputs; `Deno.serve`, the clock and the locale are not modelled. Response
    bodies are JSON values; their serialisation by `JSON.stringify` is not
    modelled. */
module GenerateArticle {
  import opened JsString
  import opened Wrappers

  // ---------------------------------------------------------------------------
  // Requests

  /** A property read from the parsed body by destructuring. */
  datatype Value =
    | Undefined                                  // property absent, or the body is not an object
    | Null                                       // JSON null
    | JsText(s: Str)                             // a JSON string
    | Other(truthy: bool, shown: Option<Str>)    // number, boolean, array or object: its truthiness,
                                                 // and what `${v}` gives (None when converting throws)

  /** What `await req.json()` and the destructuring of its result produce. */
  datatype Body =
    | Unreadable                                 // `req.json()` rejects: the body is not JSON
    | NullBody                                   // the body is JSON `null`: destructuring throws
    | Fields(topic: Value, creatorName: Value, previousBlog: Value)

  /** JavaScript truthiness of a property value. */
  predicate Truthy(v: Value)
  {
    match v
    case Undefined => false
    case Null => false
    case JsText(s) => s != []
    case Other(t, _) => t
  }

  /** `${v}` inside a template literal; None when the conversion throws. */
  function Interpolate(v: Value): Option<Str>
  {
    match v
    case Undefined => Some(Units("undefined"))
    case Null => Some(Units("null"))
    case JsText(s) => Some(s)
    case Other(_, shown) => shown
  }

  /** `v.toLowerCase()`: only a string has the method; on anything else the
      call throws a TypeError (None). */
  function LowerCaseOf(v: Value): Option<Str>
  {
    match v
    case JsText(s) => Some(LowerAscii(s))
    case _ => None
  }

  /** How many code units of `previousBlog` the style reference keeps. */
  const StyleBudget: nat := 1000

  /** `v.substring(0, 1000)`: throws (None) on anything but a string. */
  function Prefix1000(v: Value): Option<Str>
  {
    match v
    case JsText(s) => Some(if |s| <= StyleBudget then s else s[..StyleBudget])
    case _ => None
  }

  const StyleLead: Str := Units("\n\nStyle Reference: Analyze and match the writing style from this previous content: ")

  /** `styleAnalysis`: empty when `previousBlog` is falsy, otherwise the lead
      sentence followed by the first 1000 code units of `previousBlog`; None
      when `previousBlog` is truthy but not a string, where `substring`
      throws. */
  function StyleAnalysis(previousBlog: Value): (r: Option<Str>)
    ensures !Truthy(previousBlog) ==> r == Some([])
    ensures Truthy(previousBlog) ==> (r.Some? <==> previousBlog.JsText?)
    ensures Truthy(previousBlog) && r.Some? ==>
              |StyleLead| < |r.value| <= |StyleLead| + StyleBudget
              && r.value[..|StyleLead|] == StyleLead
              && IsAt(previousBlog.s, r.value[|StyleLead|..], 0)
    ensures Truthy(previousBlog) && r.Some? && |previousBlog.s| <= StyleBudget ==>
              r.value == StyleLead + previousBlog.s
    ensures Truthy(previousBlog) && r.Some? && |previousBlog.s| > StyleBudget ==>
              |r.value| == |StyleLead| + StyleBudget
  {
    if !Truthy(previousBlog) then Some([])
    else match Prefix1000(previousBlog)
      case None => None
      case Some(p) => Some(StyleLead + p)
  }

  // ---------------------------------------------------------------------------
  // The article template

  /** The long fixed passages of `mockContent`: the opening markup, the
      introduction up to the first `<strong>`, the sections up to the second
      `<strong>`, and the closing sections. The handler is stated for any
      such text; `MockArticle` is the text the function ships. */
  datatype ArticleText = ArticleText(head: Str, intro: Str, middle: Str, closing: Str)

  const ArticleHead: Str := Utf16(
      "<div class=\"article-content\">\n"
      + "  <div class=\"mb-8\">\n"
      + "    ")

  const IntroLead: Str := Utf16(
      "</p>\n"
      + "  </div>\n"
      + "  \n"
      + "  <div class=\"prose prose-lg max-w-none\">\n"
      + "    <div class=\"bg-gradient-to-r from-cyan-500/10 to-blue-500/10 border-l-4 border-cyan-500 p-6 rounded-r-lg mb-8\">\n"
      + "      <p class=\"text-lg leading-relaxed text-gray-200\">\n"
      + "        In today's rapidly evolving digital landscape, understanding ")

  const MiddleSections: Str := Utf16(
      " has become more crucial than ever. This comprehensive guide will explore the key aspects, benefits, and practical applications that are shaping the future of this exciting field.\n"
      + "      </p>\n"
      + "    </div>\n"
      + "    \n"
      + "    <h2 class=\"text-3xl font-bold mt-12 mb-4 text-cyan-400\">Understanding the Fundamentals</h2>\n"
      + "    <p class=\"text-gray-300 leading-relaxed mb-6\">\n"
      + "      Before diving deep into the specifics, it's essential to grasp the foundational concepts that drive this domain. The core principles are rooted in innovation, accessibility, and real-world impact. These elements work together to create solutions that not only solve problems but transform entire industries.\n"
      + "    </p>\n"
      + "    <p class=\"text-gray-300 leading-relaxed mb-6\">\n"
      + "      The evolution of this field has been remarkable. What started as a niche area has now become a cornerstone of modern technology and innovation. Understanding these fundamentals will give you the foundation needed to excel in this space.\n"
      + "    </p>\n"
      + "    \n"
      + "    <h3 class=\"text-2xl font-semibold mt-8 mb-4 text-blue-400\">Key Components to Consider</h3>\n"
      + "    <ul class=\"space-y-3 mb-8\">\n"
      + "      <li class=\"flex items-start gap-3\">\n"
      + "        <span class=\"text-cyan-400 mt-1.5\">\U{2192}</span>\n"
      + "        <span class=\"text-gray-300\"><strong>Strategic Implementation:</strong> A well-planned approach ensures smooth adoption and long-term success</span>\n"
      + "      </li>\n"
      + "      <li class=\"flex items-start gap-3\">\n"
      + "        <span class=\"text-cyan-400 mt-1.5\">\U{2192}</span>\n"
      + "        <span class=\"text-gray-300\"><strong>Best Practices:</strong> Following proven methodologies reduces risk and accelerates results</span>\n"
      + "      </li>\n"
      + "      <li class=\"flex items-start gap-3\">\n"
      + "        <span class=\"text-cyan-400 mt-1.5\">\U{2192}</span>\n"
      + "        <span class=\"text-gray-300\"><strong>Challenge Management:</strong> Anticipating obstacles helps teams stay agile and responsive</span>\n"
      + "      </li>\n"
      + "      <li class=\"flex items-start gap-3\">\n"
      + "        <span class=\"text-cyan-400 mt-1.5\">\U{2192}</span>\n"
      + "        <span class=\"text-gray-300\"><strong>Future Readiness:</strong> Staying ahead of trends positions you for continued innovation</span>\n"
      + "      </li>\n"
      + "    </ul>\n"
      + "    \n"
      + "    <h2 class=\"text-3xl font-bold mt-12 mb-4 text-cyan-400\">Practical Applications in the Real World</h2>\n"
      + "    <p class=\"text-gray-300 leading-relaxed mb-6\">\n"
      + "      Real-world implementation requires careful planning, execution, and continuous refinement. Organizations across industries have demonstrated that success comes from combining theoretical knowledge with practical application.\n"
      + "    </p>\n"
      + "    \n"
      + "    <div class=\"bg-gray-800/50 border border-gray-700 rounded-lg p-6 my-8\">\n"
      + "      <h3 class=\"text-xl font-semibold mb-4 text-blue-400\">\U{1F4A1} Case Study Insight</h3>\n"
      + "      <p class=\"text-gray-300 leading-relaxed\">\n"
      + "        Organizations worldwide have leveraged these principles to achieve remarkable results. From innovative startups disrupting traditional markets to established enterprises transforming their operations, the applications are both diverse and impactful. Success stories share common threads: clear vision, adaptable execution, and commitment to continuous improvement.\n"
      + "      </p>\n"
      + "    </div>\n"
      + "    \n"
      + "    <h2 class=\"text-3xl font-bold mt-12 mb-4 text-cyan-400\">Best Practices and Expert Recommendations</h2>\n"
      + "    <p class=\"text-gray-300 leading-relaxed mb-6\">\n"
      + "      Drawing from extensive industry experience and research, here are the most effective approaches that consistently deliver results:\n"
      + "    </p>\n"
      + "    \n"
      + "    <ol class=\"space-y-4 mb-8\">\n"
      + "      <li class=\"flex items-start gap-4\">\n"
      + "        <span class=\"flex-shrink-0 w-8 h-8 bg-cyan-500/20 text-cyan-400 rounded-full flex items-center justify-center font-bold\">1</span>\n"
      + "        <div>\n"
      + "          <strong class=\"text-white block mb-1\">Start with Clear Objectives</strong>\n"
      + "          <span class=\"text-gray-300\">Define what success looks like before implementation. Clear goals provide direction and enable meaningful progress tracking.</span>\n"
      + "        </div>\n"
      + "      </li>\n"
      + "      <li class=\"flex items-start gap-4\">\n"
      + "        <span class=\"flex-shrink-0 w-8 h-8 bg-cyan-500/20 text-cyan-400 rounded-full flex items-center justify-center font-bold\">2</span>\n"
      + "        <div>\n"
      + "          <strong class=\"text-white block mb-1\">Embrace Iterative Improvement</strong>\n"
      + "          <span class=\"text-gray-300\">Continuous refinement and adaptation lead to optimal results. Build feedback loops into your process.</span>\n"
      + "        </div>\n"
      + "      </li>\n"
      + "      <li class=\"flex items-start gap-4\">\n"
      + "        <span class=\"flex-shrink-0 w-8 h-8 bg-cyan-500/20 text-cyan-400 rounded-full flex items-center justify-center font-bold\">3</span>\n"
      + "        <div>\n"
      + "          <strong class=\"text-white block mb-1\">Measure and Analyze</strong>\n"
      + "          <span class=\"text-gray-300\">Data-driven decisions create sustainable outcomes. Track key metrics and adjust based on insights.</span>\n"
      + "        </div>\n"
      + "      </li>\n"
      + "      <li class=\"flex items-start gap-4\">\n"
      + "        <span class=\"flex-shrink-0 w-8 h-8 bg-cyan-500/20 text-cyan-400 rounded-full flex items-center justify-center font-bold\">4</span>\n"
      + "        <div>\n"
      + "          <strong class=\"text-white block mb-1\">Stay Adaptable</strong>\n"
      + "          <span class=\"text-gray-300\">Flexibility is key in dynamic environments. Be ready to pivot when circumstances change.</span>\n"
      + "        </div>\n"
      + "      </li>\n"
      + "    </ol>\n"
      + "    \n"
      + "    <h2 class=\"text-3xl font-bold mt-12 mb-4 text-cyan-400\">Overcoming Common Challenges</h2>\n"
      + "    <p class=\"text-gray-300 leading-relaxed mb-6\">\n"
      + "      Every implementation journey faces obstacles. Understanding these challenges in advance helps teams prepare effective mitigation strategies and avoid common pitfalls.\n"
      + "    </p>\n"
      + "    <p class=\"text-gray-300 leading-relaxed mb-6\">\n"
      + "      The most successful teams are those that view challenges as learning opportunities. They build resilience through preparation, maintain open communication channels, and foster a culture of problem-solving. When issues arise, they address them quickly and extract valuable lessons for future improvements.\n"
      + "    </p>\n"
      + "    \n"
      + "    <h2 class=\"text-3xl font-bold mt-12 mb-4 text-cyan-400\">Future Outlook and Emerging Trends</h2>\n"
      + "    <p class=\"text-gray-300 leading-relaxed mb-6\">\n"
      + "      The landscape continues to evolve at an unprecedented pace. Emerging technologies, new methodologies, and shifting market dynamics promise even greater possibilities for innovation and growth. Those who stay informed and adaptable will be best positioned to capitalize on these opportunities.\n"
      + "    </p>\n"
      + "    <p class=\"text-gray-300 leading-relaxed mb-6\">\n"
      + "      Looking ahead, we can expect continued advancement in capabilities, broader adoption across industries, and increasingly sophisticated applications. The key is to remain curious, continue learning, and be willing to experiment with new approaches.\n"
      + "    </p>\n"
      + "    \n"
      + "    <div class=\"bg-gradient-to-r from-cyan-500/10 to-blue-500/10 border border-cyan-500/30 rounded-lg p-8 my-12\">\n"
      + "      <h2 class=\"text-3xl font-bold mb-4 text-white\">Conclusion</h2>\n"
      + "      <p class=\"text-gray-300 leading-relaxed mb-6\">\n"
      + "        As we've explored throughout this comprehensive guide, ")

  const ClosingSections: Str := Utf16(
      " represents a significant opportunity for those willing to embrace change and innovation. By following the strategies, best practices, and recommendations outlined here, you'll be well-positioned to achieve meaningful success.\n"
      + "      </p>\n"
      + "      <p class=\"text-gray-300 leading-relaxed mb-6\">\n"
      + "        The journey may present challenges, but with the right mindset, tools, and approach, you can navigate them successfully. Remember that continuous learning and adaptation are your greatest assets in this dynamic field.\n"
      + "      </p>\n"
      + "      <p class=\"text-lg font-semibold text-cyan-400\">\n"
      + "        \U{2728} Ready to take the next step? Start implementing these insights today and join the growing community of forward-thinking professionals making a real difference.\n"
      + "      </p>\n"
      + "    </div>\n"
      + "  </div>\n"
      + "</div>")

  const MockArticle: ArticleText := ArticleText(ArticleHead, IntroLead, MiddleSections, ClosingSections)

  const HeadingOpen: Str := Units("<h1 class=\"text-4xl font-bold mb-2 text-white\">")
  const HeadingClose: Str := Units("</h1>")
  const BylineLead: Str := Units("\n    <p class=\"text-gray-400 text-sm\">")
  const ByWord: Str := Units("By ")
  const DateSeparator: Str := Units(" \U{2022} ")
  const StrongOpen: Str := Units("<strong>")
  const StrongClose: Str := Units("</strong>")

  /** The parts of `mockContent` in order: fixed text with the topic, the
      author, the date and the lower-cased topic (twice) in between. */
  function ContentParts(text: ArticleText, topic: Str, creatorName: Str, date: Str, lowerTopic: Str): (parts: seq<Str>)
  {
    [text.head, HeadingOpen, topic, HeadingClose,
     BylineLead, ByWord, creatorName, DateSeparator, date,
     text.intro, StrongOpen, lowerTopic, StrongClose,
     text.middle, StrongOpen, lowerTopic, StrongClose,
     text.closing]
  }

  /** `mockContent`: the values are inserted as they are, without HTML
      escaping. */
  function Content(text: ArticleText, topic: Str, creatorName: Str, date: Str, lowerTopic: Str): Str
  {
    Concat(ContentParts(text, topic, creatorName, date, lowerTopic))
  }

  /** `suggestedTopics`: five titles built around the topic, in a fixed
      order. */
  function SuggestedTopics(topic: Str): (r: seq<Str>)
    ensures |r| == 5
  {
    [Units("Advanced Techniques in ") + topic,
     topic + Units(": A Beginner's Complete Guide"),
     Units("The Future of ") + topic + Units(" in 2025"),
     Units("Common Mistakes to Avoid in ") + topic,
     topic + Units(" vs Traditional Approaches: A Comparison")]
  }

  // ---------------------------------------------------------------------------
  // Responses

  /** A JSON value as `JSON.stringify` receives it. */
  datatype Json =
    | JString(s: Str)
    | JArray(items: seq<Json>)
    | JObject(members: seq<(Str, Json)>)

  type Header = (Str, Str)

  datatype Response = Response(status: int, headers: seq<Header>, body: Option<Json>)

  /** `corsHeaders`, in declaration order. */
  const CorsHeaders: seq<Header> := [
    (Units("Access-Control-Allow-Origin"), Units("*")),
    (Units("Access-Control-Allow-Methods"), Units("GET, POST, PUT, DELETE, OPTIONS")),
    (Units("Access-Control-Allow-Headers"), Units("Content-Type, Authorization, X-Client-Info, Apikey"))]

  /** `{ ...corsHeaders, "Content-Type": "application/json" }`. */
  const JsonHeaders: seq<Header> := CorsHeaders + [(Units("Content-Type"), Units("application/json"))]

  const MissingFieldsMessage: Str := Units("Topic and creator name are required")
  const FailureMessage: Str := Units("Failed to generate article")

  /** `{ error: message }`. */
  function ErrorPayload(message: Str): Json
  {
    JObject([(Units("error"), JString(message))])
  }

  /** `{ content, suggestedTopics }`. */
  function ArticlePayload(content: Str, suggestions: seq<Str>): Json
  {
    JObject([(Units("content"), JString(content)),
             (Units("suggestedTopics"), JArray(seq(|suggestions|, i requires 0 <= i < |suggestions| => JString(suggestions[i]))))])
  }

  /** How the `try` block ends: it returns a status and a payload, or throws. */
  datatype Outcome = Returns(status: int, payload: Json) | Throws

  /** The `try` block of the handler. */
  function TryGenerate(body: Body, date: Str, text: ArticleText): Outcome
  {
    match body
    case Unreadable => Throws
    case NullBody => Throws
    case Fields(topic, creatorName, previousBlog) =>
      if !Truthy(topic) || !Truthy(creatorName) then Returns(400, ErrorPayload(MissingFieldsMessage))
      else if StyleAnalysis(previousBlog).None? then Throws
      else match (Interpolate(topic), Interpolate(creatorName), LowerCaseOf(topic))
        case (Some(t), Some(c), Some(lower)) =>
          Returns(200, ArticlePayload(Content(text, t, c, date, lower), SuggestedTopics(t)))
        case _ => Throws
  }

  /** The request handler; `verb` is `req.method`, and `text` the fixed
      article text (the shipped one unless another is given). */
  function Handle(verb: Str, body: Body, date: Str, text: ArticleText): (r: Response)
    ensures r.status == 200 || r.status == 400 || r.status == 500
    ensures verb == Units("OPTIONS") ==> r == Response(200, CorsHeaders, None)
    ensures verb != Units("OPTIONS") ==> r.headers == JsonHeaders && r.body.Some?
  {
    if verb == Units("OPTIONS") then Response(200, CorsHeaders, None)
    else match TryGenerate(body, date, text)
      case Returns(status, payload) => Response(status, JsonHeaders, Some(payload))
      case Throws => Response(500, JsonHeaders, Some(ErrorPayload(FailureMessage)))
  }

  // ---------------------------------------------------------------------------
  // Properties of the handler

  /** Only OPTIONS is singled out: every other method is handled alike. */
  lemma MethodsOtherThanOptionsAlike(v1: Str, v2: Str, body: Body, date: Str, text: ArticleText)
    requires v1 != Units("OPTIONS") && v2 != Units("OPTIONS")
    ensures Handle(v1, body, date, text) == Handle(v2, body, date, text)
  {
  }

  /** A 400 answer is given exactly when the body was read and `topic` or
      `creatorName` is falsy, and it carries the fixed message. */
  lemma MissingFieldsRejected(verb: Str, body: Body, date: Str, text: ArticleText)
    requires verb != Units("OPTIONS")
    ensures Handle(verb, body, date, text).status == 400
        <==> body.Fields? && (!Truthy(body.topic) || !Truthy(body.creatorName))
    ensures Handle(verb, body, date, text).status == 400
        ==> Handle(verb, body, date, text).body == Some(ErrorPayload(MissingFieldsMessage))
  {
  }

  /** Values made only of white space are not rejected: nothing is trimmed,
      and any non-empty string is truthy. */
  lemma BlankFieldsAccepted(verb: Str, t: Str, c: Str, p: Value, date: Str, text: ArticleText)
    requires t != [] && c != [] && IsBlank(t) && IsBlank(c)
    requires StyleAnalysis(p).Some?
    ensures Handle(verb, Fields(JsText(t), JsText(c), p), date, text).status == 200
  {
  }

  /** A 500 answer is given exactly when something in the `try` block throws:
      the body is not JSON or is `null`, or, with both required fields
      truthy, `previousBlog` is truthy but not a string, `topic` is not a
      string, or `creatorName` cannot be turned into text. It always carries
      the fixed message. */
  lemma FailuresBecomeServerErrors(verb: Str, body: Body, date: Str, text: ArticleText)
    requires verb != Units("OPTIONS")
    ensures Handle(verb, body, date, text).status == 500
        <==> body.Unreadable? || body.NullBody?
             || (Truthy(body.topic) && Truthy(body.creatorName)
                 && (StyleAnalysis(body.previousBlog).None? || !body.topic.JsText?
                     || Interpolate(body.creatorName).None?))
    ensures Handle(verb, body, date, text).status == 500
        ==> Handle(verb, body, date, text).body == Some(ErrorPayload(FailureMessage))
  {
  }

  /** A 200 answer to a request other than OPTIONS carries the article built
      from the string `topic`, the text of `creatorName` and the date, and the
      five suggestions for the topic. */
  lemma SuccessCarriesArticle(verb: Str, body: Body, date: Str, text: ArticleText)
    requires verb != Units("OPTIONS")
    requires Handle(verb, body, date, text).status == 200
    ensures body.Fields? && body.topic.JsText? && body.topic.s != []
    ensures Interpolate(body.creatorName).Some? && Truthy(body.creatorName)
    ensures Handle(verb, body, date, text).body
         == Some(ArticlePayload(
              Content(text, body.topic.s, Interpolate(body.creatorName).value, date, LowerAscii(body.topic.s)),
              SuggestedTopics(body.topic.s)))
  {
    var t, c := body.topic.s, Interpolate(body.creatorName).value;
    var article := ArticlePayload(Content(text, t, c, date, LowerAscii(t)), SuggestedTopics(t));
    assert TryGenerate(body, date, text) == Returns(200, article);
  }

  /** `previousBlog` never reaches the response: two requests that differ only
      in it get the same answer, as long as both or neither make `substring`
      throw. */
  lemma StyleReferenceUnused(verb: Str, topic: Value, creatorName: Value, p1: Value, p2: Value, date: Str, text: ArticleText)
    requires StyleAnalysis(p1).Some? <==> StyleAnalysis(p2).Some?
    ensures Handle(verb, Fields(topic, creatorName, p1), date, text) == Handle(verb, Fields(topic, creatorName, p2), date, text)
  {
    assert TryGenerate(Fields(topic, creatorName, p1), date, text) == TryGenerate(Fields(topic, creatorName, p2), date, text);
  }

  /** Each suggested title contains the topic verbatim. */
  lemma SuggestionsContainTopic(topic: Str)
    ensures forall i :: 0 <= i < 5 ==> Contains(SuggestedTopics(topic)[i], topic)
  {
    var r := SuggestedTopics(topic);
    IsAtMiddle(Units("Advanced Techniques in "), topic, []);
    assert r[0] == Units("Advanced Techniques in ") + topic + [];
    IsAtMiddle([], topic, Units(": A Beginner's Complete Guide"));
    assert r[1] == [] + topic + Units(": A Beginner's Complete Guide");
    IsAtMiddle(Units("The Future of "), topic, Units(" in 2025"));
    IsAtMiddle(Units("Common Mistakes to Avoid in "), topic, []);
    assert r[3] == Units("Common Mistakes to Avoid in ") + topic + [];
    IsAtMiddle([], topic, Units(" vs Traditional Approaches: A Comparison"));
    assert r[4] == [] + topic + Units(" vs Traditional Approaches: A Comparison");
  }

  /** The article puts the topic in the `h1`, the author and the date in the
      byline, and the lower-cased topic in two separate `<strong>` elements;
      the returned positions show where. */
  lemma ContentEmbedsFields(text: ArticleText, topic: Str, creatorName: Str, date: Str, lowerTopic: Str)
    returns (heading: nat, byline: nat, first: nat, second: nat)
    ensures IsAt(Content(text, topic, creatorName, date, lowerTopic), HeadingOpen + topic + HeadingClose, heading)
    ensures IsAt(Content(text, topic, creatorName, date, lowerTopic), ByWord + creatorName + DateSeparator + date, byline)
    ensures IsAt(Content(text, topic, creatorName, date, lowerTopic), StrongOpen + lowerTopic + StrongClose, first)
    ensures IsAt(Content(text, topic, creatorName, date, lowerTopic), StrongOpen + lowerTopic + StrongClose, second)
    ensures first + |StrongOpen + lowerTopic + StrongClose| <= second
  {
    heading := HeadingInContent(text, topic, creatorName, date, lowerTopic);
    byline := BylineInContent(text, topic, creatorName, date, lowerTopic);
    first, second := StrongsInContent(text, topic, creatorName, date, lowerTopic);
  }

  lemma HeadingInContent(text: ArticleText, topic: Str, creatorName: Str, date: Str, lowerTopic: Str)
    returns (heading: nat)
    ensures IsAt(Content(text, topic, creatorName, date, lowerTopic), HeadingOpen + topic + HeadingClose, heading)
  {
    var parts := ContentParts(text, topic, creatorName, date, lowerTopic);
    ConcatIsAt(parts, 1, 4);
    ConcatOfThree(HeadingOpen, topic, HeadingClose);
    assert parts[1..4] == [parts[1], parts[2], parts[3]];
    heading := |Concat(parts[..1])|;
  }

  lemma BylineInContent(text: ArticleText, topic: Str, creatorName: Str, date: Str, lowerTopic: Str)
    returns (byline: nat)
    ensures IsAt(Content(text, topic, creatorName, date, lowerTopic), ByWord + creatorName + DateSeparator + date, byline)
  {
    var parts := ContentParts(text, topic, creatorName, date, lowerTopic);
    ConcatIsAt(parts, 5, 9);
    ConcatOfFour(ByWord, creatorName, DateSeparator, date);
    assert parts[5..9] == [parts[5], parts[6], parts[7], parts[8]];
    byline := |Concat(parts[..5])|;
  }

  lemma StrongsInContent(text: ArticleText, topic: Str, creatorName: Str, date: Str, lowerTopic: Str)
    returns (first: nat, second: nat)
    ensures IsAt(Content(text, topic, creatorName, date, lowerTopic), StrongOpen + lowerTopic + StrongClose, first)
    ensures IsAt(Content(text, topic, creatorName, date, lowerTopic), StrongOpen + lowerTopic + StrongClose, second)
    ensures first + |StrongOpen + lowerTopic + StrongClose| <= second
  {
    var parts := ContentParts(text, topic, creatorName, date, lowerTopic);
    ConcatIsAt(parts, 10, 13);
    ConcatOfThree(StrongOpen, lowerTopic, StrongClose);
    assert parts[10..13] == [parts[10], parts[11], parts[12]];
    first := |Concat(parts[..10])|;
    ConcatIsAt(parts, 14, 17);
    assert parts[14..17] == [parts[14], parts[15], parts[16]];
    second := |Concat(parts[..14])|;
    assert parts[..14] == parts[..10] + parts[10..13] + [text.middle];
    ConcatAppend(parts[..10] + parts[10..13], [text.middle]);
    ConcatAppend(parts[..10], parts[10..13]);
  }

  lemma ConcatOfThree(a: Str, b: Str, c: Str)
    ensures Concat([a, b, c]) == a + b + c
  {
    assert [a, b, c][1..] == [b, c];
    assert [b, c][1..] == [c];
    assert [c][1..] == [];
    assert Concat([c]) == c;
    assert Concat([b, c]) == b + c;
  }

  lemma ConcatOfFour(a: Str, b: Str, c: Str, d: Str)
    ensures Concat([a, b, c, d]) == a + b + c + d
  {
    assert [a, b, c, d][1..] == [b, c, d];
    ConcatOfThree(b, c, d);
  }
}
