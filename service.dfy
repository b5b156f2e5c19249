/** The enhancement client (geminiService.ts): it builds the user prompt and
    the thinking budget from a workspace snapshot, then relays the text of a
    streamed completion chunk by chunk, turning any failure into one fixed
    diagnostic appended after what was already relayed. The hosted service is
    represented by the stream it answers with. */
module GeminiService {
  import opened Types
  import opened Strings
  import opened Seqs

  /** The one diagnostic delivered when the request or the stream fails. */
  const ErrorNotice: string :=
    "\n\n[Error: Failed to connect to the Jenga Engine. Check your network or API key.]"

  /** The thinking budget requested when deeper reasoning is on. */
  const ThinkingBudgetOn: nat := 24576

  /** One parameter as `key: value`. */
  function RenderEntry(e: (string, string)): string
  {
    e.0 + ": " + e.1
  }

  function RenderEntries(ps: Params): (r: seq<string>)
    ensures |r| == |ps|
    ensures forall i :: 0 <= i < |ps| ==> r[i] == RenderEntry(ps[i])
  {
    if ps == [] then [] else [RenderEntry(ps[0])] + RenderEntries(ps[1..])
  }

  /** The parameters as `k: v, k: v`, in entry order. */
  function ParametersString(ps: Params): string
  {
    Join(RenderEntries(ps), ", ")
  }

  /** A parameter added after the others is rendered after them. */
  lemma ParametersStringAppend(ps: Params, k: string, v: string)
    ensures ParametersString(ps + [(k, v)])
            == if ps == [] then k + ": " + v else ParametersString(ps) + ", " + k + ": " + v
  {
    assert RenderEntries(ps + [(k, v)]) == RenderEntries(ps) + [RenderEntry((k, v))];
    JoinSnoc(RenderEntries(ps), RenderEntry((k, v)), ", ");
  }

  /** The rendering is empty exactly when there are no parameters. */
  lemma ParametersStringEmptyIff(ps: Params)
    ensures ParametersString(ps) == [] <==> ps == []
  {
    var xs := RenderEntries(ps);
    if |xs| > 1 {
      assert Join(xs, ", ") == xs[0] + ", " + Join(xs[1..], ", ");
    }
  }

  /** Every parameter appears, rendered, in the parameters string. */
  lemma {:induction false} ParametersStringMentions(ps: Params, i: nat)
    requires i < |ps|
    ensures Contains(ParametersString(ps), RenderEntry(ps[i]))
    decreases |ps|
  {
    var xs := RenderEntries(ps);
    assert RenderEntries(ps[1..]) == xs[1..];
    if |ps| == 1 {
      ContainsSelf(xs[0]);
    } else if i == 0 {
      ContainsMiddle("", xs[0], ", " + Join(xs[1..], ", "));
      assert "" + xs[0] + (", " + Join(xs[1..], ", ")) == Join(xs, ", ");
    } else {
      ParametersStringMentions(ps[1..], i - 1);
      ContainsWithin(xs[0] + ", ", Join(xs[1..], ", "), "", RenderEntry(ps[i]));
      assert xs[0] + ", " + Join(xs[1..], ", ") + "" == Join(xs, ", ");
    }
  }

  /** The fixed text around the three values in the user prompt. */
  const PromptHead: string := "\n    Modality: "
  const SeedLabel: string := "\n    Seed Idea: "
  const ParamsLabel: string := "\n    Technical Parameters: "
  const PromptTail: string := "\n    \n    Generate an optimized master prompt.\n  "

  /** The user prompt sent for a workspace snapshot. */
  function UserPrompt(s: WorkspaceState): string
  {
    PromptHead + Upper(ModalityName(s.modality)) + SeedLabel + s.seed
    + ParamsLabel + ParametersString(s.params) + PromptTail
  }

  /** The second, fourth and sixth of seven strings occur in their concatenation. */
  lemma ContainsAlternate(a: string, b: string, c: string, d: string, e: string, f: string, g: string)
    ensures Contains(a + b + c + d + e + f + g, b)
    ensures Contains(a + b + c + d + e + f + g, d)
    ensures Contains(a + b + c + d + e + f + g, f)
  {
    ContainsMiddle(a, b, c + d + e + f + g);
    assert a + b + c + d + e + f + g == a + b + (c + d + e + f + g);
    ContainsMiddle(a + b + c, d, e + f + g);
    assert a + b + c + d + e + f + g == a + b + c + d + (e + f + g);
    ContainsMiddle(a + b + c + d + e, f, g);
  }

  /** The user prompt names the modality in capitals, carries the seed
      verbatim and carries the parameters string. */
  lemma PromptEmbedsState(s: WorkspaceState)
    ensures Contains(UserPrompt(s), Upper(ModalityName(s.modality)))
    ensures Contains(UserPrompt(s), s.seed)
    ensures Contains(UserPrompt(s), ParametersString(s.params))
  {
    ContainsAlternate(PromptHead, Upper(ModalityName(s.modality)), SeedLabel, s.seed,
                      ParamsLabel, ParametersString(s.params), PromptTail);
  }

  /** The thinking budget: the fixed preset when deeper reasoning is on, 0 otherwise. */
  function ThinkingBudget(isThinking: bool): (b: nat)
    ensures isThinking ==> b == ThinkingBudgetOn
    ensures !isThinking ==> b == 0
  {
    if isThinking then ThinkingBudgetOn else 0
  }

  /** What the client sends besides the fixed system instruction. */
  datatype Request = Request(contents: string, thinkingBudget: nat)

  function BuildRequest(s: WorkspaceState): Request
  {
    Request(UserPrompt(s), ThinkingBudget(s.isThinking))
  }

  /** The answer of the service: the chunks that arrive, each with or without
      text, and whether the request or the stream then fails. A failure of
      the request itself is a failing stream with no chunks. */
  datatype Stream = Stream(chunks: seq<Option<string>>, fails: bool)

  /** What a chunk forwards: its text when that is present and non-empty. */
  function Relayed(c: Option<string>): seq<string>
  {
    if c.Some? && c.value != "" then [c.value] else []
  }

  /** The text of a chunk, the empty string when it has none. */
  function TextOf(c: Option<string>): string
  {
    if c.Some? then c.value else ""
  }

  /** The texts of all chunks, in arrival order. */
  function Texts(cs: seq<Option<string>>): (r: seq<string>)
    ensures |r| == |cs|
    ensures forall i :: 0 <= i < |cs| ==> r[i] == TextOf(cs[i])
  {
    if cs == [] then [] else [TextOf(cs[0])] + Texts(cs[1..])
  }

  /** The texts forwarded for `cs`, in arrival order. */
  function NonEmptyTexts(cs: seq<Option<string>>): seq<string>
  {
    if cs == [] then [] else Relayed(cs[0]) + NonEmptyTexts(cs[1..])
  }

  /** Forwarding one more chunk adds what that chunk relays at the end. */
  lemma {:induction false} NonEmptyTextsSnoc(cs: seq<Option<string>>, c: Option<string>)
    ensures NonEmptyTexts(cs + [c]) == NonEmptyTexts(cs) + Relayed(c)
    decreases |cs|
  {
    if cs == [] {
      assert NonEmptyTexts([c]) == Relayed(c) + NonEmptyTexts([]);
    } else {
      assert (cs + [c])[1..] == cs[1..] + [c];
      NonEmptyTextsSnoc(cs[1..], c);
    }
  }

  /** No forwarded text is empty, and every non-empty text is forwarded. */
  lemma {:induction false} NonEmptyTextsExact(cs: seq<Option<string>>)
    ensures forall t :: t in NonEmptyTexts(cs) ==> t != ""
    ensures forall i :: 0 <= i < |cs| && TextOf(cs[i]) != "" ==> TextOf(cs[i]) in NonEmptyTexts(cs)
    decreases |cs|
  {
    if cs != [] {
      NonEmptyTextsExact(cs[1..]);
      forall i | 0 <= i < |cs| && TextOf(cs[i]) != ""
        ensures TextOf(cs[i]) in NonEmptyTexts(cs)
      {
        if i > 0 {
          assert cs[1..][i - 1] == cs[i];
        }
      }
    }
  }

  /** The forwarded texts keep arrival order: they are an order-preserving
      selection of all texts. */
  lemma {:induction false} NonEmptyTextsInOrder(cs: seq<Option<string>>)
    ensures IsSubsequence(NonEmptyTexts(cs), Texts(cs))
    decreases |cs|
  {
    if cs != [] {
      NonEmptyTextsInOrder(cs[1..]);
      assert Texts(cs) == [TextOf(cs[0])] + Texts(cs[1..]);
      SubsequenceCons(TextOf(cs[0]), NonEmptyTexts(cs[1..]), Texts(cs[1..]));
      if Relayed(cs[0]) == [] {
        assert NonEmptyTexts(cs) == NonEmptyTexts(cs[1..]);
      } else {
        assert NonEmptyTexts(cs) == [TextOf(cs[0])] + NonEmptyTexts(cs[1..]);
      }
    }
  }

  /** Skipping the chunks without text does not change the concatenation. */
  lemma {:induction false} NonEmptyTextsConcat(cs: seq<Option<string>>)
    ensures Concat(NonEmptyTexts(cs)) == Concat(Texts(cs))
    decreases |cs|
  {
    if cs != [] {
      NonEmptyTextsConcat(cs[1..]);
      assert Texts(cs) == [TextOf(cs[0])] + Texts(cs[1..]);
      ConcatAppend(Relayed(cs[0]), NonEmptyTexts(cs[1..]));
      ConcatAppend([TextOf(cs[0])], Texts(cs[1..]));
      assert Concat([TextOf(cs[0])]) == Concat([]) + TextOf(cs[0]);
      if Relayed(cs[0]) != [] {
        assert Concat(Relayed(cs[0])) == Concat([]) + TextOf(cs[0]);
      }
    }
  }

  /** Everything `onChunk` receives, in order: the forwarded texts, then the
      diagnostic once if the request or the stream failed. */
  function Delivered(st: Stream): seq<string>
  {
    NonEmptyTexts(st.chunks) + (if st.fails then [ErrorNotice] else [])
  }

  /** What a caller that accumulates every delivery ends up with: all the
      text that arrived, followed by the diagnostic exactly when there was a
      failure. */
  lemma DeliveredConcat(st: Stream)
    ensures Concat(Delivered(st)) == Concat(Texts(st.chunks)) + (if st.fails then ErrorNotice else "")
  {
    NonEmptyTextsConcat(st.chunks);
    ConcatAppend(NonEmptyTexts(st.chunks), if st.fails then [ErrorNotice] else []);
    assert Concat([ErrorNotice]) == Concat([]) + ErrorNotice;
  }

  /** `enhancePrompt`: builds the request, then hands each non-empty chunk
      text to the caller in arrival order, and on failure hands over the
      diagnostic once and returns normally. `delivered` lists the calls made
      to the callback. */
  method EnhancePrompt(s: WorkspaceState, stream: Stream) returns (request: Request, delivered: seq<string>)
    ensures request == BuildRequest(s)
    ensures delivered == Delivered(stream)
  {
    request := BuildRequest(s);
    delivered := [];
    var i := 0;
    while i < |stream.chunks|
      invariant 0 <= i <= |stream.chunks|
      invariant delivered == NonEmptyTexts(stream.chunks[..i])
    {
      var chunk := stream.chunks[i];
      if chunk.Some? && chunk.value != "" {
        delivered := delivered + [chunk.value];
      }
      NonEmptyTextsSnoc(stream.chunks[..i], chunk);
      assert stream.chunks[..i + 1] == stream.chunks[..i] + [chunk];
      i := i + 1;
    }
    assert stream.chunks[..i] == stream.chunks;
    if stream.fails {
      delivered := delivered + [ErrorNotice];
    }
  }
}
