/** The prompt composer (components/Workspace.tsx). Every handler replaces the
    workspace record by a new one; the generate handler also drives the
    output and the generating flag while the stream is relayed. */
module Workspace {
  import opened Types
  import opened Strings
  import opened ParamList
  import opened GeminiService

  /** The state the composer starts in. */
  function InitialState(): WorkspaceState
  {
    WorkspaceState(Text, "", [], false)
  }

  /** `handleParamChange(name, value)`. */
  function WithParam(s: WorkspaceState, name: string, value: string): (r: WorkspaceState)
    ensures Lookup(r.params, name) == Some(value)
    ensures forall k :: k != name ==> Lookup(r.params, k) == Lookup(s.params, k)
    ensures r.modality == s.modality && r.seed == s.seed && r.isThinking == s.isThinking
  {
    s.(params := Set(s.params, name, value))
  }

  /** Picking a modality button. */
  function WithModality(s: WorkspaceState, m: Modality): WorkspaceState
  {
    s.(modality := m, params := [])
  }

  /** "Reset Params". */
  function WithoutParams(s: WorkspaceState): WorkspaceState
  {
    s.(params := [])
  }

  /** The "Deeper Reasoning" switch. */
  function WithThinkingToggled(s: WorkspaceState): WorkspaceState
  {
    s.(isThinking := !s.isThinking)
  }

  /** Typing in the seed box. */
  function WithSeed(s: WorkspaceState, seed: string): WorkspaceState
  {
    s.(seed := seed)
  }

  /** The workspace a template is injected as. */
  function TemplateState(t: PromptTemplate): WorkspaceState
  {
    WorkspaceState(t.modality, t.seed, t.parameters, false)
  }

  /** The injection effect: when a template is pending, the workspace becomes
      that template's and the pending template is cleared; otherwise nothing
      happens. Returns the new workspace and the new pending template. */
  function ApplyPending(s: WorkspaceState, pending: Option<PromptTemplate>): (WorkspaceState, Option<PromptTemplate>)
  {
    match pending
    case None => (s, None)
    case Some(t) => (TemplateState(t), None)
  }

  /** Injection copies the template's modality, seed and parameters exactly,
      switches reasoning off, and is not applied a second time. */
  lemma ApplyPendingOnce(s: WorkspaceState, t: PromptTemplate)
    ensures var (s1, p1) := ApplyPending(s, Some(t));
            && s1.modality == t.modality && s1.seed == t.seed && s1.params == t.parameters
            && !s1.isThinking && p1 == None
            && ApplyPending(s1, p1) == (s1, p1)
  {
  }

  /** A well-formed workspace has parameters without repeated keys. */
  predicate WellFormed(s: WorkspaceState)
  {
    DistinctKeys(s.params)
  }

  /** Every handler keeps the workspace well-formed; injection does so for a
      template whose parameters do not repeat a key. */
  lemma HandlersKeepWellFormed(s: WorkspaceState, name: string, value: string, m: Modality, seed: string, t: PromptTemplate)
    requires WellFormed(s) && DistinctKeys(t.parameters)
    ensures WellFormed(InitialState())
    ensures WellFormed(WithParam(s, name, value))
    ensures WellFormed(WithModality(s, m)) && WellFormed(WithoutParams(s))
    ensures WellFormed(WithThinkingToggled(s)) && WellFormed(WithSeed(s, seed))
    ensures WellFormed(ApplyPending(s, Some(t)).0)
  {
  }

  /** Switching modality sets it and empties the parameters; seed and
      reasoning are kept, and a parameter chosen before the switch is
      forgotten. */
  lemma ModalitySwitchFrame(s: WorkspaceState, m: Modality, name: string, value: string)
    ensures var r := WithModality(s, m);
            r.modality == m && r.params == [] && r.seed == s.seed && r.isThinking == s.isThinking
    ensures WithModality(WithParam(s, name, value), m) == WithModality(s, m)
  {
  }

  /** "Reset Params" empties the parameters only, and resetting twice is
      resetting once. */
  lemma ResetParamsFrame(s: WorkspaceState)
    ensures var r := WithoutParams(s);
            r.params == [] && r.modality == s.modality && r.seed == s.seed && r.isThinking == s.isThinking
    ensures WithoutParams(WithoutParams(s)) == WithoutParams(s)
  {
  }

  /** The reasoning switch flips the flag only, and flipping twice restores
      the workspace. */
  lemma ThinkingToggleFrame(s: WorkspaceState)
    ensures var r := WithThinkingToggled(s);
            r.isThinking == !s.isThinking && r.modality == s.modality && r.seed == s.seed && r.params == s.params
    ensures WithThinkingToggled(WithThinkingToggled(s)) == s
  {
  }

  /** What a parameter change does to the parameters string sent with the
      request: a new parameter is rendered last; a changed one keeps its
      place among the others. */
  lemma {:induction false} WithParamRendering(s: WorkspaceState, name: string, value: string)
    ensures name !in Keys(s.params) ==>
              ParametersString(WithParam(s, name, value).params)
              == if s.params == [] then name + ": " + value
                 else ParametersString(s.params) + ", " + name + ": " + value
    ensures name in Keys(s.params) ==>
              Keys(WithParam(s, name, value).params) == Keys(s.params)
  {
    if name !in Keys(s.params) {
      ParametersStringAppend(s.params, name, value);
    }
  }

  /** The guard of `handleGenerate`: the seed is blank once trimmed. */
  predicate BlankSeed(s: WorkspaceState)
  {
    Trim(s.seed) == ""
  }

  /** The record handed to `onGenerated`; id and timestamp come from the caller. */
  function Record(s: WorkspaceState, output: string, id: string, timestamp: int): GeneratedPrompt
  {
    GeneratedPrompt(id, timestamp, s.seed, output, s.modality, false)
  }

  /** The composer component: the workspace record, the visible output and
      the generating flag. */
  class Composer {
    var state: WorkspaceState
    var output: string
    var isGenerating: bool

    constructor ()
      ensures state == InitialState() && output == "" && !isGenerating
    {
      state := InitialState();
      output := "";
      isGenerating := false;
    }

    method HandleParamChange(name: string, value: string)
      modifies this
      ensures state == WithParam(old(state), name, value)
      ensures output == old(output) && isGenerating == old(isGenerating)
    {
      state := WithParam(state, name, value);
    }

    method SelectModality(m: Modality)
      modifies this
      ensures state == WithModality(old(state), m)
      ensures output == old(output) && isGenerating == old(isGenerating)
    {
      state := WithModality(state, m);
    }

    method ResetParams()
      modifies this
      ensures state == WithoutParams(old(state))
      ensures output == old(output) && isGenerating == old(isGenerating)
    {
      state := WithoutParams(state);
    }

    method ToggleThinking()
      modifies this
      ensures state == WithThinkingToggled(old(state))
      ensures output == old(output) && isGenerating == old(isGenerating)
    {
      state := WithThinkingToggled(state);
    }

    method EditSeed(seed: string)
      modifies this
      ensures state == WithSeed(old(state), seed)
      ensures output == old(output) && isGenerating == old(isGenerating)
    {
      state := WithSeed(state, seed);
    }

    /** The injection effect; `cleared` tells the caller to clear its pending
        template (`onClearTemplate`). */
    method ApplyTemplate(pending: Option<PromptTemplate>) returns (cleared: bool)
      modifies this
      ensures (state, None) == ApplyPending(old(state), pending)
      ensures cleared == pending.Some?
      ensures output == old(output) && isGenerating == old(isGenerating)
    {
      cleared := false;
      if pending.Some? {
        state := TemplateState(pending.value);
        cleared := true;
      }
    }

    /** The `onChunk` callback of `handleGenerate`, applied to every delivery
        in order: the accumulated text grows by each chunk and is shown. */
    method Accumulate(delivered: seq<string>) returns (fullOutput: string)
      modifies this
      ensures fullOutput == Concat(delivered) && output == fullOutput
      ensures state == old(state) && isGenerating == old(isGenerating)
    {
      fullOutput := "";
      output := fullOutput;
      var i := 0;
      while i < |delivered|
        invariant 0 <= i <= |delivered|
        invariant fullOutput == Concat(delivered[..i]) && output == fullOutput
        invariant state == old(state) && isGenerating == old(isGenerating)
      {
        assert delivered[..i + 1][..i] == delivered[..i];
        fullOutput := fullOutput + delivered[i];
        output := fullOutput;
        i := i + 1;
      }
      assert delivered[..i] == delivered;
    }

    /** `handleGenerate`: nothing happens for a blank seed; otherwise the
        output is cleared, every delivered chunk is appended to it in order,
        the generating flag is dropped at the end, and the finished record is
        returned for `onGenerated`. `sent` is the request built from the
        workspace at the call. */
    method Generate(stream: Stream, id: string, timestamp: int)
      returns (sent: Option<Request>, emitted: Option<GeneratedPrompt>)
      modifies this
      ensures state == old(state)
      ensures BlankSeed(old(state)) ==>
                sent == None && emitted == None && output == old(output) && isGenerating == old(isGenerating)
      ensures !BlankSeed(old(state)) ==>
                && sent == Some(BuildRequest(old(state)))
                && output == Concat(Delivered(stream))
                && !isGenerating
                && emitted == Some(Record(old(state), output, id, timestamp))
    {
      if BlankSeed(state) {
        return None, None;
      }
      isGenerating := true;
      var request, delivered := EnhancePrompt(state, stream);
      sent := Some(request);
      var fullOutput := Accumulate(delivered);
      isGenerating := false;
      emitted := Some(Record(state, fullOutput, id, timestamp));
    }
  }
}
