/**
 * The built-in demo workflow ("Visual Marketing Pipeline") and the two id classifiers that tell a
 * demo slug from a numeric database workflow id.
 */
module Demo {
  import opened Graph
  import opened Js

  /** Prefix of demo workflow slugs. */
  const DemoIdPrefix := "demo-"

  /** The id of the one demo workflow. */
  const DemoWorkflowId := "demo-workflow"

  /** The ids of all demo workflows. */
  const DemoWorkflowIds: seq<string> := [DemoWorkflowId]

  /** A demo slug: a non-empty id that names a demo workflow or starts with the demo prefix. */
  predicate IsDemoWorkflowId(id: Option<string>)
    ensures IsDemoWorkflowId(id) <==> id.Some? && StartsWith(id.value, DemoIdPrefix)
  {
    id.Some? && id.value != "" && (id.value in DemoWorkflowIds || StartsWith(id.value, DemoIdPrefix))
  }

  /** The argument of the numeric-id check: absent (`null`/`undefined`), a string, a number, or `NaN`. */
  datatype IdArg = NoId | TextId(s: string) | NumberId(x: real) | NaNId

  /** A database workflow id: a string that `parseInt` reads as a positive number, or a positive number. */
  predicate IsNumericWorkflowId(id: IdArg)
    ensures id.TextId? ==> (IsNumericWorkflowId(id) <==> ParseInt(id.s).Some? && ParseInt(id.s).value > 0)
    ensures IsNumericWorkflowId(id) ==> id.TextId? || id.NumberId?
  {
    match id
    case NoId => false
    case TextId(s) => s != "" && ParseInt(s).Some? && ParseInt(s).value > 0
    case NumberId(x) => x > 0.0
    case NaNId => false
  }

  /** The edge cases of the id classifiers: absent and empty ids are neither kind. */
  lemma ClassifierEdgeCases()
    ensures !IsDemoWorkflowId(None) && !IsDemoWorkflowId(Some(""))
    ensures IsDemoWorkflowId(Some(DemoWorkflowId)) && IsDemoWorkflowId(Some("demo-product-listing"))
    ensures !IsDemoWorkflowId(Some("demo")) && !IsDemoWorkflowId(Some("42"))
    ensures !IsNumericWorkflowId(NoId) && !IsNumericWorkflowId(TextId("")) && !IsNumericWorkflowId(NaNId)
    ensures !IsNumericWorkflowId(NumberId(0.0)) && IsNumericWorkflowId(NumberId(3.0))
  {
    assert "demo-product-listing"[..5] == DemoIdPrefix;
    assert "42"[0] == '4';
  }

  /** `parseInt` reads "0" as 0, so "0" is not a database id. */
  lemma ZeroNotId()
    ensures !IsNumericWorkflowId(TextId("0"))
  {
    ParseDigits("0");
  }

  /** `parseInt` reads "-5" as -5, so "-5" is not a database id. */
  lemma NegativeNotId()
    ensures !IsNumericWorkflowId(TextId("-5"))
  {
    ParseNegDigits("5");
  }

  /** `parseInt` stops at the first non-digit: "12abc" reads as 12 and is a database id. */
  lemma TrailingLettersId()
    ensures IsNumericWorkflowId(TextId("12abc"))
  {
    var s := "12abc";
    SkipNone(s);
    assert s[0..] == s;
    assert DigitRun(s) == 2 by {
      assert s[1..] == "2abc" && "2abc"[1..] == "abc";
    }
    assert s[..2] == "12" && DigitsValue("12") == 12 by {
      assert "12"[..1] == "1";
    }
  }

  /** `parseInt` skips leading white space: " 7" reads as 7 and is a database id. */
  lemma LeadingSpaceId()
    ensures IsNumericWorkflowId(TextId(" 7"))
  {
    var t := " 7";
    assert SkipSpace(t) == 1 by {
      assert t[1..] == "7";
      SkipNone("7");
    }
    assert t[1..] == "7";
    ParseDigits("7");
  }

  /** The decimal text of every positive integer is a database id. */
  lemma PositiveIntegersAreIds(n: int)
    requires n > 0
    ensures IsNumericWorkflowId(TextId(IntText(n)))
  {
    ParseIntText(n);
  }

  /** A letter at the start means no number for `parseInt`. */
  lemma LetterNotNumber(s: string)
    requires s != [] && 'a' <= s[0] <= 'z'
    ensures ParseInt(s) == None
  {
    assert SkipSpace(s) == 0;
    assert s[0..] == s;
  }

  /** No id is both a demo slug and a database id. */
  lemma DemoNotNumeric(s: string)
    requires IsDemoWorkflowId(Some(s))
    ensures !IsNumericWorkflowId(TextId(s))
  {
    if s !in DemoWorkflowIds {
      assert s[0] == s[..|DemoIdPrefix|][0] == 'd';
    }
    LetterNotNumber(s);
  }

  // ---------------------------------------------------------------------------------------------
  // The demo graph (long texts are written as concatenations of short pieces)

  function Pos(x: real, y: real): map<string, Value>
  {
    map["position" := Object(map["x" := Num(x), "y" := Num(y)])]
  }

  function ImgUploadData(): Data
  {
    map["label" := Str("Upload Product " + "Image"), "status" := Str("success"), "inputType" := Str("upload"),
        "file" := Object(map["url" := Str("/demo/demo_1.png"), "name" := Str("demo_1.png"), "type" := Str("image/png")])]
  }

  function ImgCropData(): Data
  {
    map["label" := Str("Crop Image " + "(Center 80%)"), "status" := Str("idle"),
        "xPercent" := Num(10.0), "yPercent" := Num(10.0), "widthPercent" := Num(80.0), "heightPercent" := Num(80.0),
        "imageUrl" := Str("/demo/demo_1.png")]
  }

  function TextASystemData(): Data
  {
    map["label" := Str("Text #1 (System " + "Prompt)"), "status" := Str("idle"),
        "text" := Str("You are a " + "professional " + "marketing " + "copywriter.\n" + "Generate a " + "compelling " + "one-paragraph " + "product " + "description.")]
  }

  function TextADetailsData(): Data
  {
    map["label" := Str("Text #2 " + "(Product " + "Details)"), "status" := Str("idle"),
        "text" := Str("Product: " + "Wireless " + "Bluetooth " + "Headphones.\n" + "Features: Noise " + "cancellation, " + "30-hour " + "battery, " + "foldable design.")]
  }

  function Llm1Data(): Data
  {
    map["label" := Str("LLM Node #1 " + "\U{2014} " + "Product " + "Description"), "status" := Str("idle"),
        "model" := Str("gemini-2.5-flash"), "outputs" := List([]), "temperature" := Num(0.6),
        "viewMode" := Str("single"), "imageHandleCount" := Num(1.0), "systemPrompt" := Str("")]
  }

  function VidUploadData(): Data
  {
    map["label" := Str("Upload Product " + "Video"), "status" := Str("success"), "inputType" := Str("upload"),
        "file" := Object(map["url" := Str("/demo/demoV_1.mp4"), "name" := Str("demoV_1.mp4"), "type" := Str("video/mp4")])]
  }

  function VidFrameData(): Data
  {
    map["label" := Str("Extract Frame " + "(50%)"), "status" := Str("idle"), "timestamp" := Str("50%")]
  }

  function TextCSystemData(): Data
  {
    map["label" := Str("Text #3 (System " + "Prompt)"), "status" := Str("idle"),
        "text" := Str("You are a " + "social media " + "manager.\n" + "Create a " + "tweet-length " + "marketing post " + "based on the " + "product image " + "and video frame.")]
  }

  function Llm2Data(): Data
  {
    map["label" := Str("LLM Node #2 " + "\U{2014} Final " + "Tweet/Post"), "status" := Str("idle"),
        "model" := Str("gemini-2.5-flash"), "outputs" := List([]), "temperature" := Num(0.7),
        "viewMode" := Str("single"), "imageHandleCount" := Num(2.0), "systemPrompt" := Str("")]
  }

  function DemoNodes(): seq<Node>
  {
    [
      Node("img-upload", ImageNode, ImgUploadData(), Pos(0.0, 40.0)),
      Node("img-crop", CropImageNode, ImgCropData(), Pos(260.0, 40.0)),
      Node("txt-a-system", TextNode, TextASystemData(), Pos(260.0, 250.0)),
      Node("txt-a-details", TextNode, TextADetailsData(), Pos(260.0, 430.0)),
      Node("llm-1", LlmNode, Llm1Data(), Pos(560.0, 220.0)),
      Node("vid-upload", VideoNode, VidUploadData(), Pos(0.0, 720.0)),
      Node("vid-frame", ExtractFrameNode, VidFrameData(), Pos(260.0, 720.0)),
      Node("txt-c-system", TextNode, TextCSystemData(), Pos(560.0, 520.0)),
      Node("llm-2", LlmNode, Llm2Data(), Pos(900.0, 520.0))
    ]
  }

  function DemoEdges(): seq<Edge>
  {
    [
      Edge("img-upload", "img-crop", Some("image_url")),
      Edge("img-crop", "llm-1", Some("image-0")),
      Edge("txt-a-system", "llm-1", Some("system-prompt")),
      Edge("txt-a-details", "llm-1", Some("prompt")),
      Edge("vid-upload", "vid-frame", Some("video_url")),
      Edge("txt-c-system", "llm-2", Some("system-prompt")),
      Edge("llm-1", "llm-2", Some("prompt")),
      Edge("img-crop", "llm-2", Some("image-0")),
      Edge("vid-frame", "llm-2", Some("image-1"))
    ]
  }

  /** A demo workflow: its slug and its graph. */
  datatype DemoWorkflow = DemoWorkflow(id: string, nodes: seq<Node>, edges: seq<Edge>)

  function DemoWorkflows(): seq<DemoWorkflow>
  {
    [DemoWorkflow(DemoWorkflowId, DemoNodes(), DemoEdges())]
  }

  /** `DEMO_WORKFLOWS.find(d => d.id === id)`. */
  function FindDemo(id: string): (r: Option<DemoWorkflow>)
    ensures r.Some? <==> id in DemoWorkflowIds
    ensures r.Some? ==> r.value.id == id && r.value in DemoWorkflows()
  {
    if id == DemoWorkflowId then Some(DemoWorkflows()[0]) else None
  }

  /** A rank for the demo nodes that grows along every demo edge. */
  function DemoRank(): map<string, int>
  {
    map["img-upload" := 0, "txt-a-system" := 0, "txt-a-details" := 0, "vid-upload" := 0, "txt-c-system" := 0,
        "img-crop" := 1, "vid-frame" := 1, "llm-1" := 2, "llm-2" := 3]
  }

  /** The ids of the demo nodes, in the order the graph lists them. */
  function DemoIds(): seq<string>
  {
    ["img-upload", "img-crop", "txt-a-system", "txt-a-details", "llm-1", "vid-upload", "vid-frame", "txt-c-system", "llm-2"]
  }

  /** The demo graph lists nine nodes, and their ids are distinct. */
  lemma DemoIdsDistinct()
    ensures IdsOf(DemoNodes()) == DemoIds()
    ensures NoDup(DemoIds())
  {
    var ids := DemoIds();
    forall i, j | 0 <= i < j < |ids|
      ensures ids[i] != ids[j]
    {
    }
    DistinctNoDup(ids);
  }

  /** Every demo edge joins two nodes of the demo graph. */
  lemma DemoEdgesKnown()
    ensures forall e :: e in DemoEdges() ==> e.source in DemoIds() && e.target in DemoIds()
    ensures forall e :: e in DemoEdges() ==> e.source in Known(DemoNodes()) && e.target in Known(DemoNodes())
  {
    DemoIdsDistinct();
    IdsOfKnown(DemoNodes());
  }

  /** Whatever subset of its ends is known, the demo wiring has no cycle: the rank grows along every edge. */
  lemma DemoAcyclic(known: set<string>)
    ensures Acyclic(LinksOf(known, DemoEdges()))
  {
    var links := LinksOf(known, DemoEdges());
    var rank := DemoRank();
    forall l | l in links
      ensures l.0 in rank && l.1 in rank && rank[l.0] < rank[l.1]
    {
      LinksOfMember(known, DemoEdges(), l.0, l.1);
    }
    RankedAcyclic(links, rank);
  }
}
