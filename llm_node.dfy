/**
 * The LLM node as the editor runs it on its own: gathering the system prompt, the user prompt,
 * the context of upstream LLM nodes and the image URLs from the edges into the node; cutting long
 * prompts down to a token budget; pruning image ports; and the node's height.
 */
module LlmNode {
  import opened Graph
  import opened Js
  import Dispatch

  /** The text appended after a prompt that was cut. */
  const Notice := "\n\n[Content " + "truncated due " + "to length limit]"

  /** The heading placed before each upstream LLM output in the system context. */
  const ContextMarker := "\n\n--- CONTEXT ---\n"

  /** The user prompt used when no edge supplies one. */
  const DefaultPrompt := "Process this request."

  /** A string-typed data field: its text, or "" when it is absent (`value || ""`). */
  function StrOf(v: Value): string
  {
    if v.Str? then v.s else ""
  }

  /** The port is an image port: its id starts with `image`. */
  predicate ImagePort(h: Option<string>)
  {
    h.Some? && StartsWith(h.value, "image")
  }

  // ---------------------------------------------------------------------------------------------
  // Truncation

  /** `text.substring(0, n)`: a negative end counts as 0 and an end past the text as its length. */
  function Prefix(s: string, n: int): (r: string)
    ensures |r| == if n <= 0 then 0 else if n >= |s| then |s| else n
    ensures r == s[..|r|]
  {
    if n <= 0 then [] else if n >= |s| then s else s[..n]
  }

  /**
   * `truncateForTokens(text, maxTokens)`: a text of at most four characters per token is kept;
   * a longer one is cut to 100 characters under that bound and the notice is appended.
   */
  function Truncate(text: string, maxTokens: int): (r: string)
    ensures |text| <= 4 * maxTokens ==> r == text
    ensures |text| > 4 * maxTokens ==> r == Prefix(text, 4 * maxTokens - 100) + Notice
  {
    var maxChars := maxTokens * 4;
    if |text| <= maxChars then text else Prefix(text, maxChars - 100) + Notice
  }

  /**
   * A cut text with a budget of at least 25 tokens fits the budget; whatever the budget, cutting
   * twice is cutting once.
   */
  lemma TruncateIdempotent(text: string, maxTokens: int)
    ensures maxTokens >= 25 ==> |Truncate(text, maxTokens)| <= 4 * maxTokens
    ensures Truncate(Truncate(text, maxTokens), maxTokens) == Truncate(text, maxTokens)
  {
    var once := Truncate(text, maxTokens);
    assert |Notice| == 41;
    if |text| > 4 * maxTokens && |once| > 4 * maxTokens {
      assert 4 * maxTokens - 100 < 0;
      assert once == Notice;
    }
  }

  // ---------------------------------------------------------------------------------------------
  // Gathering the inputs

  /** What the edges into the node have supplied so far. */
  datatype Inputs = Inputs(system: string, user: string, context: string, images: seq<Value>)

  const NoInputs := Inputs("", "", "", [])

  /** The content of an LLM node's newest output, if it has any output. */
  function LastOutput(d: Data): Option<string>
  {
    var outs := Field(d, "outputs");
    if outs.List? && |outs.items| > 0 then Some(StrOf(OptProp(outs.items[|outs.items| - 1], "content")))
    else None
  }

  /** The image URL a source node hands to an image port, if it is one that does. */
  function ImageOf(n: Node): Value
  {
    match n.kind
    case ImageNode => Dispatch.ImageUrl(n.data)
    case CropImageNode => Field(n.data, "outputUrl")
    case ExtractFrameNode => Field(n.data, "outputUrl")
    case _ => Undefined
  }

  /** One edge into the node, from the node list `nodes`. */
  function Step(nodes: seq<Node>, p: Inputs, e: Edge): Inputs
  {
    match Find(nodes, e.source)
    case None => p
    case Some(n) =>
      match n.kind
      case TextNode =>
        if e.targetHandle == Some("system-prompt") then p.(system := StrOf(Field(n.data, "text")))
        else if e.targetHandle == Some("prompt") then p.(user := StrOf(Field(n.data, "text")))
        else p
      case LlmNode =>
        (match LastOutput(n.data)
         case None => p
         case Some(o) =>
           if e.targetHandle == Some("system-prompt") then p.(context := p.context + ContextMarker + o)
           else if e.targetHandle == Some("prompt") then p.(user := o)
           else p)
      case _ =>
        if ImagePort(e.targetHandle) && Truthy(ImageOf(n)) then p.(images := p.images + [ImageOf(n)]) else p
  }

  /** The inputs after the edges `es`, taken in order. */
  function Gathered(nodes: seq<Node>, es: seq<Edge>): Inputs
  {
    if es == [] then NoInputs else Step(nodes, Gathered(nodes, es[..|es| - 1]), es[|es| - 1])
  }

  /** The edge-loop of a run: go through the edges into node `id` in order, updating the four inputs. */
  method GatherInputs(nodes: seq<Node>, edges: seq<Edge>, id: string) returns (p: Inputs)
    ensures p == Gathered(nodes, Dispatch.Incoming(edges, id))
  {
    var incoming := Dispatch.Incoming(edges, id);
    var systemPromptBase, userPromptBase, incomingContext := "", "", "";
    var imageUrls: seq<Value> := [];
    for i := 0 to |incoming|
      invariant Inputs(systemPromptBase, userPromptBase, incomingContext, imageUrls) == Gathered(nodes, incoming[..i])
    {
      var edge := incoming[i];
      assert incoming[..i + 1][..i] == incoming[..i];
      var sourceNode := Find(nodes, edge.source);
      if sourceNode.None? {
        continue;
      }
      var n := sourceNode.value;
      if n.kind == TextNode {
        var text := StrOf(Field(n.data, "text"));
        if edge.targetHandle == Some("system-prompt") {
          systemPromptBase := text;
        } else if edge.targetHandle == Some("prompt") {
          userPromptBase := text;
        }
      }
      if n.kind == LlmNode {
        var outputs := LastOutput(n.data);
        if outputs.Some? {
          if edge.targetHandle == Some("system-prompt") {
            incomingContext := incomingContext + ContextMarker + outputs.value;
          } else if edge.targetHandle == Some("prompt") {
            userPromptBase := outputs.value;
          }
        }
      }
      if (n.kind == ImageNode || n.kind == CropImageNode || n.kind == ExtractFrameNode) && ImagePort(edge.targetHandle) {
        var url := ImageOf(n);
        if Truthy(url) {
          imageUrls := imageUrls + [url];
        }
      }
    }
    assert incoming[..|incoming|] == incoming;
    return Inputs(systemPromptBase, userPromptBase, incomingContext, imageUrls);
  }

  /** The prompts sent to the model: system prompt and context cut at 4000 tokens, the user prompt (or the default) at 1000. */
  method FinalPrompts(p: Inputs) returns (system: string, user: string)
    ensures system == Truncate(p.system + p.context, 4000)
    ensures user == Truncate(if p.user == "" then DefaultPrompt else p.user, 1000)
    ensures |system| <= 16000 && |user| <= 4000 && user != ""
  {
    TruncateIdempotent(p.system + p.context, 4000);
    TruncateIdempotent(if p.user == "" then DefaultPrompt else p.user, 1000);
    system := Truncate(p.system + p.context, 4000);
    user := Truncate(if p.user == "" then DefaultPrompt else p.user, 1000);
  }

  // ---------------------------------------------------------------------------------------------
  // What the gathered inputs are

  /** The edge sets the system prompt: a text node on the system-prompt port. */
  predicate SetsSystem(nodes: seq<Node>, e: Edge)
  {
    Find(nodes, e.source).Some? && Find(nodes, e.source).value.kind == TextNode && e.targetHandle == Some("system-prompt")
  }

  /** The edge sets the user prompt: a text node, or an LLM node with an output, on the prompt port. */
  predicate SetsUser(nodes: seq<Node>, e: Edge)
  {
    && Find(nodes, e.source).Some?
    && e.targetHandle == Some("prompt")
    && var n := Find(nodes, e.source).value;
       n.kind == TextNode || (n.kind == LlmNode && LastOutput(n.data).Some?)
  }

  /** The user prompt such an edge sets. */
  function UserOf(nodes: seq<Node>, e: Edge): string
    requires SetsUser(nodes, e)
  {
    var n := Find(nodes, e.source).value;
    if n.kind == TextNode then StrOf(Field(n.data, "text")) else LastOutput(n.data).value
  }

  /** The context block one edge contributes: a marked LLM output on the system-prompt port. */
  function ContextOf(nodes: seq<Node>, e: Edge): string
  {
    if Find(nodes, e.source).Some? && Find(nodes, e.source).value.kind == LlmNode
       && LastOutput(Find(nodes, e.source).value.data).Some? && e.targetHandle == Some("system-prompt")
    then ContextMarker + LastOutput(Find(nodes, e.source).value.data).value
    else ""
  }

  /** The images one edge contributes: the present URL of an image, crop or frame node on an image port. */
  function ImagesOf(nodes: seq<Node>, e: Edge): seq<Value>
  {
    if Find(nodes, e.source).Some? && Find(nodes, e.source).value.kind in {ImageNode, CropImageNode, ExtractFrameNode}
       && ImagePort(e.targetHandle) && Truthy(ImageOf(Find(nodes, e.source).value))
    then [ImageOf(Find(nodes, e.source).value)]
    else []
  }

  /** What one edge does to each of the four inputs. */
  lemma StepFacts(nodes: seq<Node>, p: Inputs, e: Edge)
    ensures Step(nodes, p, e).system == if SetsSystem(nodes, e) then StrOf(Field(Find(nodes, e.source).value.data, "text")) else p.system
    ensures Step(nodes, p, e).user == if SetsUser(nodes, e) then UserOf(nodes, e) else p.user
    ensures Step(nodes, p, e).context == p.context + ContextOf(nodes, e)
    ensures Step(nodes, p, e).images == p.images + ImagesOf(nodes, e)
  {
  }

  /** The last edge of a non-empty list, applied to the inputs of the others. */
  lemma GatheredSnoc(nodes: seq<Node>, es: seq<Edge>)
    requires es != []
    ensures var p := Gathered(nodes, es[..|es| - 1]);
      var e := es[|es| - 1];
      && Gathered(nodes, es).system == (if SetsSystem(nodes, e) then StrOf(Field(Find(nodes, e.source).value.data, "text")) else p.system)
      && Gathered(nodes, es).user == (if SetsUser(nodes, e) then UserOf(nodes, e) else p.user)
      && Gathered(nodes, es).context == p.context + ContextOf(nodes, e)
      && Gathered(nodes, es).images == p.images + ImagesOf(nodes, e)
  {
    StepFacts(nodes, Gathered(nodes, es[..|es| - 1]), es[|es| - 1]);
  }

  /** With no edge setting it, the system prompt stays empty. */
  lemma {:induction false} NoSystem(nodes: seq<Node>, es: seq<Edge>)
    requires forall e :: e in es ==> !SetsSystem(nodes, e)
    ensures Gathered(nodes, es).system == ""
  {
    if es != [] {
      GatheredSnoc(nodes, es);
      assert forall e :: e in es[..|es| - 1] ==> e in es;
      NoSystem(nodes, es[..|es| - 1]);
    }
  }

  /** The system prompt comes from the last edge that sets it. */
  lemma {:induction false} SystemLastWins(nodes: seq<Node>, es: seq<Edge>, k: nat)
    requires k < |es| && SetsSystem(nodes, es[k])
    requires forall j :: k < j < |es| ==> !SetsSystem(nodes, es[j])
    ensures Gathered(nodes, es).system == StrOf(Field(Find(nodes, es[k].source).value.data, "text"))
  {
    GatheredSnoc(nodes, es);
    if k < |es| - 1 {
      SystemLastWins(nodes, es[..|es| - 1], k);
    }
  }

  /** With no edge setting it, the user prompt stays empty (and the default prompt is used). */
  lemma {:induction false} NoUser(nodes: seq<Node>, es: seq<Edge>)
    requires forall e :: e in es ==> !SetsUser(nodes, e)
    ensures Gathered(nodes, es).user == ""
  {
    if es != [] {
      GatheredSnoc(nodes, es);
      assert forall e :: e in es[..|es| - 1] ==> e in es;
      NoUser(nodes, es[..|es| - 1]);
    }
  }

  /** The user prompt comes from the last edge that sets it. */
  lemma {:induction false} UserLastWins(nodes: seq<Node>, es: seq<Edge>, k: nat)
    requires k < |es| && SetsUser(nodes, es[k])
    requires forall j :: k < j < |es| ==> !SetsUser(nodes, es[j])
    ensures Gathered(nodes, es).user == UserOf(nodes, es[k])
  {
    GatheredSnoc(nodes, es);
    if k < |es| - 1 {
      UserLastWins(nodes, es[..|es| - 1], k);
    }
  }

  /** The context is the edges' context blocks laid end to end in edge order. */
  lemma {:induction false} ContextInOrder(nodes: seq<Node>, a: seq<Edge>, b: seq<Edge>)
    ensures Gathered(nodes, a + b).context == Gathered(nodes, a).context + Gathered(nodes, b).context
  {
    if b == [] {
      assert a + b == a;
    } else {
      var front, last := b[..|b| - 1], b[|b| - 1];
      assert a + b == (a + front) + [last] && b == front + [last];
      ContextInOrder(nodes, a, front);
      GatheredAppend(nodes, a + front, last);
      GatheredAppend(nodes, front, last);
      StepFacts(nodes, Gathered(nodes, a + front), last);
      StepFacts(nodes, Gathered(nodes, front), last);
    }
  }

  /** The images are the edges' images laid end to end in edge order. */
  lemma {:induction false} ImagesInOrder(nodes: seq<Node>, a: seq<Edge>, b: seq<Edge>)
    ensures Gathered(nodes, a + b).images == Gathered(nodes, a).images + Gathered(nodes, b).images
  {
    if b == [] {
      assert a + b == a;
    } else {
      var front, last := b[..|b| - 1], b[|b| - 1];
      assert a + b == (a + front) + [last] && b == front + [last];
      ImagesInOrder(nodes, a, front);
      GatheredAppend(nodes, a + front, last);
      GatheredAppend(nodes, front, last);
      StepFacts(nodes, Gathered(nodes, a + front), last);
      StepFacts(nodes, Gathered(nodes, front), last);
    }
  }

  /** A single edge contributes its context block and its images. */
  lemma OneEdge(nodes: seq<Node>, e: Edge)
    ensures Gathered(nodes, [e]).context == ContextOf(nodes, e)
    ensures Gathered(nodes, [e]).images == ImagesOf(nodes, e)
  {
    GatheredSnoc(nodes, [e]);
    assert [e][..0] == [];
  }

  /** Every gathered image URL is present, and there is at most one per edge. */
  lemma {:induction false} ImagesPresent(nodes: seq<Node>, es: seq<Edge>)
    ensures forall v :: v in Gathered(nodes, es).images ==> Truthy(v)
    ensures |Gathered(nodes, es).images| <= |es|
  {
    if es != [] {
      ImagesPresent(nodes, es[..|es| - 1]);
    }
  }

  /** An edge from an id that is not on the canvas changes nothing. */
  lemma UnknownStep(nodes: seq<Node>, p: Inputs, e: Edge)
    requires e.source !in Known(nodes)
    ensures Step(nodes, p, e) == p
  {
  }

  /** Gathering one more edge is one more step. */
  lemma GatheredAppend(nodes: seq<Node>, es: seq<Edge>, e: Edge)
    ensures Gathered(nodes, es + [e]) == Step(nodes, Gathered(nodes, es), e)
  {
    assert (es + [e])[..|es|] == es;
  }

  /** Edges from ids that are not on the canvas change nothing. */
  lemma {:induction false} UnknownSourcesIgnored(nodes: seq<Node>, es: seq<Edge>)
    ensures Gathered(nodes, Filter(es, (e: Edge) => e.source in Known(nodes))) == Gathered(nodes, es)
  {
    if es != [] {
      var front, last := es[..|es| - 1], es[|es| - 1];
      var keep := (e: Edge) => e.source in Known(nodes);
      UnknownSourcesIgnored(nodes, front);
      assert es == front + [last];
      FilterConcat(front, [last], keep);
      GatheredAppend(nodes, front, last);
      var kept := Filter(front, keep);
      if keep(last) {
        assert Filter([last], keep) == [last] by {
          assert [last][..0] == [];
        }
        GatheredAppend(nodes, kept, last);
      } else {
        assert Filter([last], keep) == [] by {
          assert [last][..0] == [];
        }
        assert kept + [] == kept;
        UnknownStep(nodes, Gathered(nodes, front), last);
      }
    }
  }

  // ---------------------------------------------------------------------------------------------
  // Image ports and height

  /** The first position of `c` in `s`. */
  function IndexOf(s: string, c: char): (r: Option<nat>)
    ensures r.Some? ==> r.value < |s| && s[r.value] == c && forall i :: 0 <= i < r.value ==> s[i] != c
    ensures r.None? ==> forall i :: 0 <= i < |s| ==> s[i] != c
  {
    if s == [] then None
    else if s[0] == c then Some(0)
    else match IndexOf(s[1..], c)
      case None => None
      case Some(i) => Some(i + 1)
  }

  /** `h.split("-")[1]`: the text between the first and the second `-`, or nothing when there is no `-`. */
  function SecondPiece(h: string): Option<string>
  {
    match IndexOf(h, '-')
    case None => None
    case Some(i) =>
      var rest := h[i + 1..];
      match IndexOf(rest, '-')
      case None => Some(rest)
      case Some(j) => Some(rest[..j])
  }

  /** `parseInt(h.split("-")[1])`, with `None` for `NaN`. */
  function HandleIndex(h: string): Option<int>
  {
    match SecondPiece(h)
    case None => None
    case Some(t) => ParseInt(t)
  }

  /** The id of the `k`-th image port of an LLM node. */
  function ImageHandle(k: nat): string
  {
    "image-" + NatText(k)
  }

  /** The port `image-k` reads back as index `k`. */
  lemma ImageHandleIndex(k: nat)
    ensures HandleIndex(ImageHandle(k)) == Some(k)
  {
    var t := NatText(k);
    var h := ImageHandle(k);
    assert IndexOf(h, '-') == Some(5) by {
      assert h[5] == '-' && forall i :: 0 <= i < 5 ==> h[i] == "image"[i];
    }
    assert h[6..] == t;
    assert IndexOf(t, '-') == None;
    ParseDigits(t);
    NatTextValue(k);
  }

  /** An edge survives the removal of the last image port of node `id`, which had `count` ports. */
  predicate KeepsEdge(id: string, count: int, e: Edge)
  {
    || e.target != id
    || !ImagePort(e.targetHandle)
    || (HandleIndex(e.targetHandle.value).Some? && HandleIndex(e.targetHandle.value).value < count - 1)
  }

  /** The edges and the image port count after removing the last image port. */
  datatype Pruned = Pruned(edges: seq<Edge>, count: int)

  /**
   * `handleRemoveImageInput`: nothing happens with one port or fewer; otherwise the edges into the
   * node's image ports that do not name a port below the new count go, and the count drops by one.
   */
  function RemoveImageInput(edges: seq<Edge>, id: string, count: int): (r: Pruned)
    ensures count <= 1 ==> r == Pruned(edges, count)
    ensures count > 1 ==> r.count == count - 1
    ensures count > 1 ==> forall e :: e in r.edges <==> e in edges && KeepsEdge(id, count, e)
  {
    if count <= 1 then Pruned(edges, count)
    else Pruned(Filter(edges, (e: Edge) => KeepsEdge(id, count, e)), count - 1)
  }

  /**
   * After a removal, every edge into the node's `image-k` ports has `k` below the new count, and
   * the edges into ports that remain, like all other edges, are kept.
   */
  lemma RemoveImageInputFits(edges: seq<Edge>, id: string, count: int, k: nat)
    requires count > 1
    ensures forall e :: e in RemoveImageInput(edges, id, count).edges && e.target == id && e.targetHandle == Some(ImageHandle(k)) ==>
      k < count - 1
    ensures forall e :: e in edges && e.target == id && e.targetHandle == Some(ImageHandle(k)) && k < count - 1 ==>
      e in RemoveImageInput(edges, id, count).edges
  {
    ImageHandleIndex(k);
    assert StartsWith(ImageHandle(k), "image") by {
      assert ImageHandle(k)[..5] == "image";
    }
  }

  /** `requiredHeight`: at least 400, and room below the first image port for every port plus 60. */
  function RequiredHeight(count: int): (h: int)
    ensures h >= 400 && h >= 270 + count * 40 + 60
    ensures h == 400 || h == 270 + count * 40 + 60
  {
    if 400 >= 270 + count * 40 + 60 then 400 else 270 + count * 40 + 60
  }

  /** More image ports never make the node shorter, and up to one port the height is the base height. */
  lemma HeightGrows(a: int, b: int)
    requires a <= b
    ensures RequiredHeight(a) <= RequiredHeight(b)
    ensures b <= 1 ==> RequiredHeight(b) == 400
  {
  }
}
