/**
 * What the orchestrator does for one node of a layer, given the run's context (the outputs of the
 * nodes executed so far): the write a passive node (text, image, video) makes into the context, and
 * the job an active node (LLM, crop, frame extraction) is triggered with, built from the context
 * entries of the sources of its incoming edges.
 */
module Dispatch {
  import opened Graph
  import opened Js

  /** One node's entry in the run's context, `{ text?, imageUrls?, videoUrl? }`; an absent field is `Undefined`/`None`. */
  datatype Entry = Entry(text: Value, imageUrls: Option<seq<Value>>, videoUrl: Value)

  /** The run's context: node id to the entry that node left. */
  type Context = map<string, Entry>

  function TextEntry(t: Value): Entry
  {
    Entry(t, None, Undefined)
  }

  function ImagesEntry(urls: seq<Value>): Entry
  {
    Entry(Undefined, Some(urls), Undefined)
  }

  function VideoEntry(u: Value): Entry
  {
    Entry(Undefined, None, u)
  }

  // ---------------------------------------------------------------------------------------------
  // Passive nodes

  predicate IsPassive(k: Kind)
  {
    k == TextNode || k == ImageNode || k == VideoNode
  }

  /** An image node's URL: the uploaded file's URL, or else the `image` field. */
  function ImageUrl(d: Data): (u: Value)
    ensures Truthy(OptProp(Field(d, "file"), "url")) ==> u == OptProp(Field(d, "file"), "url")
    ensures !Truthy(OptProp(Field(d, "file"), "url")) ==> u == Field(d, "image")
  {
    Or(OptProp(Field(d, "file"), "url"), Field(d, "image"))
  }

  /** A video node's URL: the uploaded file's URL. */
  function VideoUrl(d: Data): Value
  {
    OptProp(Field(d, "file"), "url")
  }

  /**
   * The context after a node is met in the trigger loop: a text node records its text; an image
   * or video node records its URL only when that URL is truthy; an active node writes nothing.
   */
  function PassiveWrite(ctx: Context, n: Node): (r: Context)
    ensures forall k :: k != n.id ==> (k in r <==> k in ctx) && (k in ctx ==> r[k] == ctx[k])
    ensures n.id in r && n.id !in ctx ==> IsPassive(n.kind)
    ensures n.kind == TextNode ==> n.id in r && r[n.id] == TextEntry(Field(n.data, "text"))
    ensures n.kind == ImageNode && Truthy(ImageUrl(n.data)) ==> n.id in r && r[n.id] == ImagesEntry([ImageUrl(n.data)])
    ensures n.kind == VideoNode && Truthy(VideoUrl(n.data)) ==> n.id in r && r[n.id] == VideoEntry(VideoUrl(n.data))
    ensures n.kind == ImageNode && !Truthy(ImageUrl(n.data)) ==> r == ctx
    ensures n.kind == VideoNode && !Truthy(VideoUrl(n.data)) ==> r == ctx
    ensures !IsPassive(n.kind) ==> r == ctx
  {
    match n.kind
    case TextNode => ctx[n.id := TextEntry(Field(n.data, "text"))]
    case ImageNode =>
      var url := ImageUrl(n.data);
      if Truthy(url) then ctx[n.id := ImagesEntry([url])] else ctx
    case VideoNode =>
      var url := VideoUrl(n.data);
      if Truthy(url) then ctx[n.id := VideoEntry(url)] else ctx
    case _ => ctx
  }

  // ---------------------------------------------------------------------------------------------
  // Incoming edges

  /** `edges.filter(e => e.target === id)`, in edge order. */
  function Incoming(edges: seq<Edge>, id: string): (r: seq<Edge>)
    ensures forall e :: e in r <==> e in edges && e.target == id
    ensures |r| <= |edges|
  {
    if edges == [] then []
    else
      var e := edges[|edges| - 1];
      Incoming(edges[..|edges| - 1], id) + (if e.target == id then [e] else [])
  }

  // ---------------------------------------------------------------------------------------------
  // LLM inputs

  /** The edge's source left an entry with truthy text. */
  predicate GivesText(ctx: Context, e: Edge)
  {
    e.source in ctx && Truthy(ctx[e.source].text)
  }

  predicate IsSystem(e: Edge)
  {
    e.targetHandle == Some("system-prompt")
  }

  function Block(ctx: Context, e: Edge): string
    requires e.source in ctx
  {
    "[System Context]: " + Text(ctx[e.source].text) + "\n\n"
  }

  function Line(ctx: Context, e: Edge): string
    requires e.source in ctx
  {
    "\n[Context]: " + Text(ctx[e.source].text)
  }

  /** What one edge adds to the system blocks: its source's block when that source has text and the edge enters the system-prompt port. */
  function BlockOf(ctx: Context, e: Edge): string
  {
    if GivesText(ctx, e) && IsSystem(e) then Block(ctx, e) else ""
  }

  /** What one edge adds to the context lines: its source's line when that source has text and the edge enters another port. */
  function LineOf(ctx: Context, e: Edge): string
  {
    if GivesText(ctx, e) && !IsSystem(e) then Line(ctx, e) else ""
  }

  /** The image URLs one edge's source left. */
  function ImagesOf(ctx: Context, e: Edge): seq<Value>
  {
    if e.source in ctx && ctx[e.source].imageUrls.Some? then ctx[e.source].imageUrls.value else []
  }

  /** The system-context blocks of the edges into the system-prompt port, the last edge's first. */
  function SystemBlocks(ctx: Context, es: seq<Edge>): string
  {
    if es == [] then "" else BlockOf(ctx, es[|es| - 1]) + SystemBlocks(ctx, es[..|es| - 1])
  }

  /** The context lines of the other edges with text, in edge order. */
  function ContextLines(ctx: Context, es: seq<Edge>): string
  {
    if es == [] then "" else ContextLines(ctx, es[..|es| - 1]) + LineOf(ctx, es[|es| - 1])
  }

  /** The image URLs the edges' sources left, concatenated in edge order. */
  function Images(ctx: Context, es: seq<Edge>): seq<Value>
  {
    if es == [] then [] else Images(ctx, es[..|es| - 1]) + ImagesOf(ctx, es[|es| - 1])
  }

  /**
   * The aggregated system prompt of an LLM node, edge by edge: a source with text into the
   * system-prompt port puts its block in front, a source with text into another port appends its
   * line, any other edge leaves the text as it is.
   */
  function Aggregated(ctx: Context, es: seq<Edge>): string
  {
    if es == [] then ""
    else
      var e, before := es[|es| - 1], Aggregated(ctx, es[..|es| - 1]);
      if !GivesText(ctx, e) then before
      else if IsSystem(e) then Block(ctx, e) + before
      else before + Line(ctx, e)
  }

  /** The aggregated text is every system block, the last edge's first, followed by every context line in edge order. */
  lemma {:induction false} AggregatedForm(ctx: Context, es: seq<Edge>)
    ensures Aggregated(ctx, es) == SystemBlocks(ctx, es) + ContextLines(ctx, es)
  {
    if es != [] {
      AggregatedForm(ctx, es[..|es| - 1]);
    }
  }

  lemma GatherStep(ctx: Context, es: seq<Edge>, i: nat)
    requires i < |es|
    ensures Aggregated(ctx, es[..i + 1]) ==
      var e, before := es[i], Aggregated(ctx, es[..i]);
      if !GivesText(ctx, e) then before else if IsSystem(e) then Block(ctx, e) + before else before + Line(ctx, e)
    ensures Images(ctx, es[..i + 1]) == Images(ctx, es[..i]) + ImagesOf(ctx, es[i])
  {
    assert es[..i + 1][..i] == es[..i];
  }

  /**
   * The LLM node's input loop: every source entry with truthy text is prepended as a system block
   * (system-prompt port) or appended as a context line (any other port); every source's image URLs
   * are appended.
   */
  method Gather(ctx: Context, es: seq<Edge>) returns (text: string, images: seq<Value>)
    ensures text == Aggregated(ctx, es)
    ensures images == Images(ctx, es)
  {
    text, images := "", [];
    var i := 0;
    while i < |es|
      invariant i <= |es|
      invariant text == Aggregated(ctx, es[..i])
      invariant images == Images(ctx, es[..i])
    {
      var e := es[i];
      GatherStep(ctx, es, i);
      if e.source in ctx {
        var d := ctx[e.source];
        if Truthy(d.text) {
          if e.targetHandle == Some("system-prompt") {
            text := Block(ctx, e) + text;
          } else {
            text := text + Line(ctx, e);
          }
        }
        if d.imageUrls.Some? {
          images := images + d.imageUrls.value;
        }
      }
      i := i + 1;
    }
    assert es[..|es|] == es;
  }

  lemma {:induction false} SystemBlocksSplit(ctx: Context, a: seq<Edge>, b: seq<Edge>)
    ensures SystemBlocks(ctx, a + b) == SystemBlocks(ctx, b) + SystemBlocks(ctx, a)
  {
    if b == [] {
      assert a + b == a;
    } else {
      var front, x := b[..|b| - 1], b[|b| - 1];
      assert (a + b)[..|a + b| - 1] == a + front && (a + b)[|a + b| - 1] == x;
      assert SystemBlocks(ctx, a + b) == BlockOf(ctx, x) + SystemBlocks(ctx, a + front);
      assert SystemBlocks(ctx, b) == BlockOf(ctx, x) + SystemBlocks(ctx, front);
      SystemBlocksSplit(ctx, a, front);
    }
  }

  lemma {:induction false} ContextLinesSplit(ctx: Context, a: seq<Edge>, b: seq<Edge>)
    ensures ContextLines(ctx, a + b) == ContextLines(ctx, a) + ContextLines(ctx, b)
  {
    if b == [] {
      assert a + b == a;
    } else {
      var front, x := b[..|b| - 1], b[|b| - 1];
      assert (a + b)[..|a + b| - 1] == a + front && (a + b)[|a + b| - 1] == x;
      assert ContextLines(ctx, a + b) == ContextLines(ctx, a + front) + LineOf(ctx, x);
      assert ContextLines(ctx, b) == ContextLines(ctx, front) + LineOf(ctx, x);
      ContextLinesSplit(ctx, a, front);
      assert ContextLines(ctx, a + b) == ContextLines(ctx, a) + (ContextLines(ctx, front) + LineOf(ctx, x));
    }
  }

  lemma {:induction false} ImagesSplit(ctx: Context, a: seq<Edge>, b: seq<Edge>)
    ensures Images(ctx, a + b) == Images(ctx, a) + Images(ctx, b)
  {
    if b == [] {
      assert a + b == a;
    } else {
      var front, x := b[..|b| - 1], b[|b| - 1];
      assert (a + b)[..|a + b| - 1] == a + front && (a + b)[|a + b| - 1] == x;
      assert Images(ctx, a + b) == Images(ctx, a + front) + ImagesOf(ctx, x);
      assert Images(ctx, b) == Images(ctx, front) + ImagesOf(ctx, x);
      ImagesSplit(ctx, a, front);
    }
  }

  /**
   * Splitting the incoming edges anywhere: the later edges' system blocks come first, then the
   * earlier edges' blocks, then every context line and every image in edge order.
   */
  lemma AggregateOrder(ctx: Context, a: seq<Edge>, b: seq<Edge>)
    ensures SystemBlocks(ctx, a + b) + ContextLines(ctx, a + b)
         == SystemBlocks(ctx, b) + SystemBlocks(ctx, a) + ContextLines(ctx, a) + ContextLines(ctx, b)
    ensures Images(ctx, a + b) == Images(ctx, a) + Images(ctx, b)
  {
    SystemBlocksSplit(ctx, a, b);
    ContextLinesSplit(ctx, a, b);
    ImagesSplit(ctx, a, b);
  }

  /** One edge on its own contributes exactly its block, its line or nothing. */
  lemma OneEdge(ctx: Context, e: Edge)
    ensures GivesText(ctx, e) && IsSystem(e) ==> SystemBlocks(ctx, [e]) + ContextLines(ctx, [e]) == Block(ctx, e)
    ensures GivesText(ctx, e) && !IsSystem(e) ==> SystemBlocks(ctx, [e]) + ContextLines(ctx, [e]) == Line(ctx, e)
    ensures !GivesText(ctx, e) ==> SystemBlocks(ctx, [e]) + ContextLines(ctx, [e]) == ""
  {
    assert [e][..0] == [];
  }

  /** The aggregated text opens with the block of the last system-prompt source that has text. */
  lemma LastSystemLeads(ctx: Context, es: seq<Edge>, j: nat)
    requires j < |es| && GivesText(ctx, es[j]) && IsSystem(es[j])
    requires forall k :: j < k < |es| ==> !(GivesText(ctx, es[k]) && IsSystem(es[k]))
    ensures StartsWith(SystemBlocks(ctx, es) + ContextLines(ctx, es), Block(ctx, es[j]))
  {
    var a, b := es[..j + 1], es[j + 1..];
    assert es == a + b;
    SystemBlocksSplit(ctx, a, b);
    NoSystem(ctx, b);
    assert a[..j] == es[..j];
    assert SystemBlocks(ctx, es) == Block(ctx, es[j]) + SystemBlocks(ctx, es[..j]);
  }

  lemma {:induction false} NoSystem(ctx: Context, es: seq<Edge>)
    requires forall k :: 0 <= k < |es| ==> !(GivesText(ctx, es[k]) && IsSystem(es[k]))
    ensures SystemBlocks(ctx, es) == ""
  {
    if es != [] {
      NoSystem(ctx, es[..|es| - 1]);
    }
  }

  // ---------------------------------------------------------------------------------------------
  // Crop and frame-extraction inputs

  datatype Port = ImagePort | VideoPort

  /** `sourceData?.imageUrls?.[0]` or `sourceData?.videoUrl`. */
  function Pick(ctx: Context, e: Edge, port: Port): Value
  {
    if e.source !in ctx then Undefined
    else
      var d := ctx[e.source];
      match port
      case ImagePort => if d.imageUrls.Some? && d.imageUrls.value != [] then d.imageUrls.value[0] else Undefined
      case VideoPort => d.videoUrl
  }

  /** The input of a crop or extract node: the first truthy pick along its incoming edges, else the node's own field. */
  function FirstPick(ctx: Context, es: seq<Edge>, port: Port, fallback: Value): (r: Value)
    ensures (forall i :: 0 <= i < |es| ==> !Truthy(Pick(ctx, es[i], port))) ==> r == fallback
    ensures forall i ::
      (0 <= i < |es| && Truthy(Pick(ctx, es[i], port)) && forall j :: 0 <= j < i ==> !Truthy(Pick(ctx, es[j], port)))
      ==> r == Pick(ctx, es[i], port)
  {
    if es == [] then fallback
    else if Truthy(Pick(ctx, es[0], port)) then Pick(ctx, es[0], port)
    else
      var r := FirstPick(ctx, es[1..], port, fallback);
      assert forall i :: 1 <= i < |es| ==> es[i] == es[1..][i - 1];
      r
  }

  /** The input loop of a crop or extract node, which stops at the first source that has one. */
  method FirstInput(ctx: Context, es: seq<Edge>, port: Port, fallback: Value) returns (r: Value)
    ensures r == FirstPick(ctx, es, port, fallback)
  {
    r := fallback;
    var i := 0;
    while i < |es|
      invariant i <= |es|
      invariant forall j :: 0 <= j < i ==> !Truthy(Pick(ctx, es[j], port))
      invariant r == fallback
    {
      var e := es[i];
      var picked := Undefined;
      if e.source in ctx {
        var d := ctx[e.source];
        picked := match port
          case ImagePort => if d.imageUrls.Some? && d.imageUrls.value != [] then d.imageUrls.value[0] else Undefined
          case VideoPort => d.videoUrl;
      }
      if Truthy(picked) {
        r := picked;
        return;
      }
      i := i + 1;
    }
  }

  // ---------------------------------------------------------------------------------------------
  // Jobs

  /** The payload an active node's task is triggered with. */
  datatype Job =
    | LlmJob(prompt: Value, systemPrompt: string, imageUrls: seq<Value>, model: Value, temperature: Value)
    | CropJob(imageUrl: Value, x: Value, y: Value, width: Value, height: Value)
    | ExtractJob(videoUrl: Value, timestamp: Value)

  function LlmJobOf(d: Data, text: string, images: seq<Value>): Job
  {
    LlmJob(Or(Field(d, "prompt"), Str("Analyze this.")), text, images,
           Or(Field(d, "model"), Str("gemini-1.5-flash")), Field(d, "temperature"))
  }

  function CropJobOf(d: Data, url: Value): Job
  {
    CropJob(url, Or(Field(d, "xPercent"), Num(0.0)), Or(Field(d, "yPercent"), Num(0.0)),
            Or(Field(d, "widthPercent"), Num(100.0)), Or(Field(d, "heightPercent"), Num(100.0)))
  }

  function ExtractJobOf(d: Data, url: Value): Job
  {
    ExtractJob(url, Or(Field(d, "timestamp"), Num(0.0)))
  }

  /**
   * The defaults of the job payloads: a missing or falsy prompt or model is replaced, every crop
   * rectangle field and the timestamp always has a number or a truthy value, and a width or height
   * of exactly 0 becomes 100 (the `||` default also replaces a zero).
   */
  lemma JobDefaults(d: Data, text: string, images: seq<Value>, url: Value)
    ensures Truthy(LlmJobOf(d, text, images).prompt) && Truthy(LlmJobOf(d, text, images).model)
    ensures !Truthy(Field(d, "prompt")) ==> LlmJobOf(d, text, images).prompt == Str("Analyze this.")
    ensures Truthy(Field(d, "prompt")) ==> LlmJobOf(d, text, images).prompt == d["prompt"]
    ensures Truthy(CropJobOf(d, url).width) && Truthy(CropJobOf(d, url).height)
    ensures Field(d, "widthPercent") == Num(0.0) ==> CropJobOf(d, url).width == Num(100.0)
    ensures !Truthy(Field(d, "xPercent")) ==> CropJobOf(d, url).x == Num(0.0)
    ensures !Truthy(Field(d, "timestamp")) ==> ExtractJobOf(d, url).timestamp == Num(0.0)
  {
  }
}
