/**
 * The part of the agent runtime that `bi_agent/agent.py` and `app.py` rely
 * on: instruction templates that read session state through
 * `{name}` placeholders, LLM stages that write their answer under an output
 * key, and sequential agents that run their sub-agents in order over one
 * shared session state.
 *
 * An instruction is modelled by the lines of its prompt that carry braces,
 * kept as pieces: plain text, a state read `{key}`, or a literal block in
 * doubled braces. All other prompt text is brace-free and therefore
 * irrelevant to templating.
 */
module Runtime {
  import opened Base
  import opened PyText

  /* ---------------------------------------------------------------------
     Placeholder syntax. The runtime rewrites every match of the pattern
     `{+[^{}]*}+`: a run of opening braces, text without braces, a run of
     closing braces. The text, stripped of whitespace, is a state read when
     it is an identifier; any other match is left as it is.
     --------------------------------------------------------------------- */

  predicate IsNameChar(c: char) {
    ('a' <= c <= 'z') || ('A' <= c <= 'Z') || ('0' <= c <= '9') || c == '_'
  }

  /** A Python identifier over ASCII. */
  predicate IsName(s: string) {
    && |s| > 0
    && !('0' <= s[0] <= '9')
    && forall i :: 0 <= i < |s| ==> IsNameChar(s[i])
  }

  predicate NoBraces(s: string) {
    '{' !in s && '}' !in s
  }

  lemma NoBracesAppend(a: string, b: string)
    requires NoBraces(a) && NoBraces(b)
    ensures NoBraces(a + b)
  {
  }

  /** Length of the leading run of character `c`. */
  function RunOf(s: string, c: char): (n: nat)
    ensures n <= |s|
    ensures forall i :: 0 <= i < n ==> s[i] == c
    ensures n < |s| ==> s[n] != c
  {
    if |s| > 0 && s[0] == c then 1 + RunOf(s[1..], c) else 0
  }

  /** Length of the leading brace-free stretch. */
  function PlainLen(s: string): (n: nat)
    ensures n <= |s|
    ensures n < |s| ==> s[n] == '{' || s[n] == '}'
  {
    if |s| > 0 && s[0] != '{' && s[0] != '}' then 1 + PlainLen(s[1..]) else 0
  }

  /** The state keys a template reads, in order of appearance. */
  function Placeholders(s: string): seq<string>
    decreases |s|
  {
    if |s| == 0 then []
    else if s[0] != '{' then Placeholders(s[1..])
    else
      var open := RunOf(s, '{');
      var body := PlainLen(s[open..]);
      if open + body < |s| && s[open + body] == '}' then
        var close := RunOf(s[open + body..], '}');
        var name := Strip(s[open..open + body]);
        (if IsName(name) then [name] else []) + Placeholders(s[open + body + close..])
      else Placeholders(s[1..])
  }

  datatype Piece =
    | Text(text: string)
    | Read(key: string)
    | Escaped(inner: string)

  /** Text with at least one character that is neither part of a name nor
      whitespace, so that it can never strip down to a name. */
  predicate HasPunctuation(s: string) {
    exists i :: 0 <= i < |s| && !IsNameChar(s[i]) && !IsSpace(s[i])
  }

  predicate WellFormedPiece(p: Piece) {
    match p
    case Text(t) => NoBraces(t)
    case Read(k) => IsName(k)
    case Escaped(q) => NoBraces(q) && HasPunctuation(q)
  }

  predicate WellFormedPieces(ps: seq<Piece>) {
    forall i :: 0 <= i < |ps| ==> WellFormedPiece(ps[i])
  }

  function PieceText(p: Piece): string {
    match p
    case Text(t) => t
    case Read(k) => "{" + k + "}"
    case Escaped(q) => "{{" + q + "}}"
  }

  /** The template text of an instruction. */
  function RenderPieces(ps: seq<Piece>): string {
    if |ps| == 0 then "" else PieceText(ps[0]) + RenderPieces(ps[1..])
  }

  /** The keys of the read pieces, in order. */
  function PieceReads(ps: seq<Piece>): (r: seq<string>)
    ensures forall k :: k in r <==> exists i :: 0 <= i < |ps| && ps[i] == Read(k)
  {
    if |ps| == 0 then []
    else
      assert forall i :: 0 < i < |ps| ==> ps[i] == ps[1..][i - 1];
      (if ps[0].Read? then [ps[0].key] else []) + PieceReads(ps[1..])
  }

  lemma {:induction false} PieceReadsAppend(a: seq<Piece>, b: seq<Piece>)
    ensures PieceReads(a + b) == PieceReads(a) + PieceReads(b)
    decreases |a|
  {
    if |a| == 0 {
      assert a + b == b;
    } else {
      assert (a + b)[1..] == a[1..] + b;
      PieceReadsAppend(a[1..], b);
    }
  }

  lemma WellFormedAppend(a: seq<Piece>, b: seq<Piece>)
    requires WellFormedPieces(a) && WellFormedPieces(b)
    ensures WellFormedPieces(a + b)
  {
    assert forall i :: |a| <= i < |a + b| ==> (a + b)[i] == b[i - |a|];
  }

  lemma {:induction false} SkipPlain(p: string, t: string)
    requires NoBraces(p)
    ensures Placeholders(p + t) == Placeholders(t)
  {
    if |p| > 0 {
      assert (p + t)[1..] == p[1..] + t;
      assert p[0] in p && forall c :: c in p[1..] ==> c in p;
      SkipPlain(p[1..], t);
    } else {
      assert p + t == t;
    }
  }

  lemma {:induction false} PlainLenOf(q: string, t: string)
    requires NoBraces(q)
    requires |t| > 0 && (t[0] == '{' || t[0] == '}')
    ensures PlainLen(q + t) == |q|
  {
    if |q| > 0 {
      assert (q + t)[1..] == q[1..] + t;
      assert q[0] in q && forall c :: c in q[1..] ==> c in q;
      PlainLenOf(q[1..], t);
    } else {
      assert q + t == t;
    }
  }

  lemma NameHasNoBraces(k: string)
    requires forall i :: 0 <= i < |k| ==> IsNameChar(k[i])
    ensures NoBraces(k)
  {
  }

  lemma NameIsTrimmed(k: string)
    requires IsName(k)
    ensures Strip(k) == k
  {
    assert !IsSpace(k[0]) && !IsSpace(k[|k| - 1]);
    StripTrimmed(k);
  }

  /** A character of `q` that is not whitespace survives stripping. */
  lemma StripKeeps(q: string, i: nat)
    requires i < |q| && !IsSpace(q[i])
    ensures exists j :: 0 <= j < |Strip(q)| && Strip(q)[j] == q[i]
  {
    StripUnfolds(q);
    KeptBetween(q, LStrip(q), RStrip(LStrip(q)), i);
  }

  lemma StripUnfolds(q: string)
    ensures Strip(q) == RStrip(LStrip(q))
  {
  }

  /** What survives a left and then a right trim keeps every non-space
      character. */
  lemma KeptBetween(q: string, l: string, r: string, i: nat)
    requires |l| <= |q| && l == q[|q| - |l|..] && AllSpace(q[..|q| - |l|])
    requires |r| <= |l| && r == l[..|r|] && AllSpace(l[|r|..])
    requires i < |q| && !IsSpace(q[i])
    ensures exists j :: 0 <= j < |r| && r[j] == q[i]
  {
    var a := |q| - |l|;
    assert q[a + |r|..] == l[|r|..];
    InsidePadding(q, a, |r|, i);
    assert r[i - a] == l[i - a] == q[i];
  }

  /** A non-space character lies between a space prefix and a space suffix. */
  lemma InsidePadding(q: string, a: nat, len: nat, i: nat)
    requires a + len <= |q| && i < |q| && !IsSpace(q[i])
    requires AllSpace(q[..a]) && AllSpace(q[a + len..])
    ensures a <= i < a + len
  {
    forall k | 0 <= k < a ensures IsSpace(q[k]) {
      assert q[..a][k] == q[k];
    }
    forall k | a + len <= k < |q| ensures IsSpace(q[k]) {
      assert q[a + len..][k - (a + len)] == q[k];
    }
  }

  /** A punctuated text strips to a text that still has the punctuation. */
  lemma PunctuatedNotName(q: string)
    requires HasPunctuation(q)
    ensures !IsName(Strip(q))
  {
    var i :| 0 <= i < |q| && !IsNameChar(q[i]) && !IsSpace(q[i]);
    StripKeeps(q, i);
  }

  /** A text that does not start with a closing brace. */
  predicate NoCloseHead(t: string) {
    |t| == 0 || t[0] != '}'
  }

  lemma ReadOne(k: string, t: string)
    requires IsName(k) && NoCloseHead(t)
    ensures Placeholders("{" + k + "}" + t) == [k] + Placeholders(t)
  {
    ReadOneShape(k, t);
    NameIsTrimmed(k);
  }

  /** How `{k}` followed by `t` splits into the pattern's three runs. */
  lemma ReadOneShape(k: string, t: string)
    requires IsName(k) && NoCloseHead(t)
    ensures var s := "{" + k + "}" + t;
            && RunOf(s, '{') == 1 && PlainLen(s[1..]) == |k|
            && 1 + |k| < |s| && s[1 + |k|] == '}'
            && s[1..1 + |k|] == k && RunOf(s[1 + |k|..], '}') == 1
            && s[1 + |k| + 1..] == t
  {
    var s := "{" + k + "}" + t;
    NameHasNoBraces(k);
    assert s[1..] == k + ("}" + t);
    assert RunOf(s, '{') == 1 by {
      assert s[1..][0] == k[0];
    }
    PlainLenOf(k, "}" + t);
    assert s[1..1 + |k|] == k;
    assert s[1 + |k|..] == "}" + t;
    assert RunOf("}" + t, '}') == 1 by {
      assert ("}" + t)[1..] == t;
    }
    assert s[|k| + 2..] == t;
  }

  lemma OpenRunTwo(q: string, t: string)
    requires |q| > 0 && q[0] != '{'
    ensures RunOf("{{" + q + t, '{') == 2
  {
    var s := "{{" + q + t;
    assert s[1..][1..] == q + t;
    assert RunOf(q + t, '{') == 0;
    assert RunOf(s[1..], '{') == 1;
  }

  lemma CloseRunTwo(t: string)
    requires NoCloseHead(t)
    ensures RunOf("}}" + t, '}') == 2
  {
    assert ("}}" + t)[1..] == "}" + t;
    assert ("}" + t)[1..] == t;
  }

  lemma SkipEscaped(q: string, t: string)
    requires NoBraces(q) && HasPunctuation(q) && NoCloseHead(t)
    ensures Placeholders("{{" + q + "}}" + t) == Placeholders(t)
  {
    PunctuatedNotName(q);
    SkipNonName(q, t);
  }

  /** A doubled-brace block whose text does not strip to a name reads
      nothing. */
  lemma SkipNonName(q: string, t: string)
    requires NoBraces(q) && |q| > 0 && !IsName(Strip(q)) && NoCloseHead(t)
    ensures Placeholders("{{" + q + "}}" + t) == Placeholders(t)
  {
    EscapedShape(q, t);
  }

  /** How `{{q}}` followed by `t` splits into the pattern's three runs. */
  lemma EscapedShape(q: string, t: string)
    requires NoBraces(q) && |q| > 0 && NoCloseHead(t)
    ensures var s := "{{" + q + "}}" + t;
            && RunOf(s, '{') == 2 && PlainLen(s[2..]) == |q|
            && 2 + |q| < |s| && s[2 + |q|] == '}'
            && s[2..2 + |q|] == q && RunOf(s[2 + |q|..], '}') == 2
            && s[2 + |q| + 2..] == t
  {
    var s := "{{" + q + "}}" + t;
    assert s == "{{" + q + ("}}" + t);
    OpenRunTwo(q, "}}" + t);
    PlainLenOf(q, "}}" + t);
    assert s[2..] == q + ("}}" + t);
    assert s[2..2 + |q|] == q;
    assert s[2 + |q|..] == "}}" + t;
    CloseRunTwo(t);
    assert s[|q| + 4..] == t;
  }

  lemma {:induction false} RenderHead(ps: seq<Piece>)
    requires WellFormedPieces(ps)
    ensures NoCloseHead(RenderPieces(ps))
    decreases |ps|
  {
    if |ps| > 0 {
      var t := PieceText(ps[0]);
      if |t| == 0 {
        RenderHead(ps[1..]);
      }
    }
  }

  /** The keys found in a well-formed template are exactly its read pieces:
      literal blocks in doubled braces never read state. */
  lemma {:induction false} PlaceholdersOfPieces(ps: seq<Piece>)
    requires WellFormedPieces(ps)
    ensures Placeholders(RenderPieces(ps)) == PieceReads(ps)
    decreases |ps|
  {
    if |ps| > 0 {
      var rest := RenderPieces(ps[1..]);
      PlaceholdersOfPieces(ps[1..]);
      RenderHead(ps[1..]);
      match ps[0]
      case Text(t) =>
        SkipPlain(t, rest);
      case Read(k) =>
        ReadOne(k, rest);
      case Escaped(q) =>
        SkipEscaped(q, rest);
    }
  }

  /* ---------------------------------------------------------------------
     Session state and instruction injection.
     --------------------------------------------------------------------- */

  /** Session state. Every value the pipeline stores is the text of an LLM
      answer. */
  type State = map<string, string>

  /** An event of the run: the agent that produced it and the state delta it
      carries. */
  datatype Event = Event(author: string, delta: State)

  /** The state after applying the events' deltas in order: later writes of
      a key replace earlier ones. */
  function ApplyDeltas(state: State, events: seq<Event>): State
    decreases |events|
  {
    if |events| == 0 then state else ApplyDeltas(state + events[0].delta, events[1..])
  }

  /** `str(e)` of the `KeyError` injection raises for a missing key. The
      error's argument is the text "Context variable not found: `k`.", and
      `str` of a `KeyError` prints its argument quoted; a key is a plain
      identifier, so the quoting adds only the single quotes. */
  function MissingKeyMessage(k: string): string {
    "'Context variable not found: `" + k + "`.'"
  }

  /** The instruction as sent to the model: every read replaced by the
      state's value, literal blocks kept with their braces. A read of a key
      the state lacks raises. */
  function Inject(ps: seq<Piece>, state: State): (r: Result<string>)
    ensures r.Ok? <==> forall k :: k in PieceReads(ps) ==> k in state
  {
    if |ps| == 0 then Ok("")
    else
      var head: Result<string> :=
        match ps[0]
        case Text(t) => Ok(t)
        case Read(k) => if k in state then Ok(state[k]) else Raised(MissingKeyMessage(k))
        case Escaped(q) => Ok("{{" + q + "}}");
      match head
      case Raised(m) => Raised(m)
      case Ok(h) =>
        match Inject(ps[1..], state)
        case Raised(m) => Raised(m)
        case Ok(rest) => Ok(h + rest)
  }

  /** One piece as injected. */
  function InjectPiece(p: Piece, state: State): Result<string> {
    match p
    case Text(t) => Ok(t)
    case Read(k) => if k in state then Ok(state[k]) else Raised(MissingKeyMessage(k))
    case Escaped(q) => Ok("{{" + q + "}}")
  }

  /** The first error of two, or the two texts joined. */
  function Then(h: Result<string>, r: Result<string>): Result<string> {
    match h
    case Raised(m) => Raised(m)
    case Ok(x) =>
      match r
      case Raised(m) => Raised(m)
      case Ok(y) => Ok(x + y)
  }

  lemma InjectUnfold(ps: seq<Piece>, state: State)
    requires |ps| > 0
    ensures Inject(ps, state) == Then(InjectPiece(ps[0], state), Inject(ps[1..], state))
  {
  }

  lemma ThenAssoc(x: Result<string>, y: Result<string>, z: Result<string>, w: Result<string>)
    requires w.Ok? <==> y.Ok? && z.Ok?
    requires w.Ok? ==> w.value == y.value + z.value
    ensures Then(x, w).Ok? <==> Then(x, y).Ok? && z.Ok?
    ensures Then(x, w).Ok? ==> Then(x, w).value == Then(x, y).value + z.value
  {
    if Then(x, w).Ok? {
      assert x.value + (y.value + z.value) == x.value + y.value + z.value;
    }
  }

  /** Injecting two instructions written one after the other: the whole
      succeeds exactly when both parts do, and its text is the two texts
      joined. */
  lemma {:induction false} InjectAppend(a: seq<Piece>, b: seq<Piece>, state: State)
    ensures Inject(a + b, state).Ok? <==> Inject(a, state).Ok? && Inject(b, state).Ok?
    ensures Inject(a + b, state).Ok? ==>
              Inject(a + b, state).value == Inject(a, state).value + Inject(b, state).value
    decreases |a|
  {
    if |a| == 0 {
      assert a + b == b;
      assert Inject(a, state) == Ok("");
      if Inject(b, state).Ok? {
        assert "" + Inject(b, state).value == Inject(b, state).value;
      }
    } else {
      var ab := a + b;
      assert ab[0] == a[0];
      assert ab[1..] == a[1..] + b;
      InjectAppend(a[1..], b, state);
      InjectUnfold(ab, state);
      InjectUnfold(a, state);
      ThenAssoc(InjectPiece(a[0], state), Inject(a[1..], state), Inject(b, state), Inject(a[1..] + b, state));
    }
  }

  /** Wherever the instruction reads a key, the injected text carries the
      state's value for it, right after the text injected for the pieces
      before the read. */
  lemma InjectReadsState(ps: seq<Piece>, state: State, i: nat, k: string)
    requires i < |ps| && ps[i] == Read(k)
    requires Inject(ps, state).Ok?
    ensures k in state && Inject(ps[..i], state).Ok?
    ensures OccursAt(Inject(ps, state).value, state[k], |Inject(ps[..i], state).value|)
  {
    assert ps == ps[..i] + ([Read(k)] + ps[i + 1..]);
    ReadBetween(ps[..i], k, ps[i + 1..], state);
  }

  lemma ReadBetween(a: seq<Piece>, k: string, c: seq<Piece>, state: State)
    requires Inject(a + ([Read(k)] + c), state).Ok?
    ensures k in state && Inject(a, state).Ok?
    ensures OccursAt(Inject(a + ([Read(k)] + c), state).value, state[k], |Inject(a, state).value|)
  {
    var b := [Read(k)] + c;
    InjectAppend(a, b, state);
    ReadHead(k, c, state);
    Placed(Inject(a + b, state).value, Inject(a, state).value, state[k], Inject(c, state).value);
  }

  lemma Placed(whole: string, before: string, v: string, after: string)
    requires whole == before + (v + after)
    ensures OccursAt(whole, v, |before|)
  {
    assert whole[|before|..|before| + |v|] == v;
  }

  /** An instruction opening with a read injects the key's value first. */
  lemma ReadHead(k: string, c: seq<Piece>, state: State)
    requires Inject([Read(k)] + c, state).Ok?
    ensures k in state && Inject(c, state).Ok?
    ensures Inject([Read(k)] + c, state).value == state[k] + Inject(c, state).value
  {
    var b := [Read(k)] + c;
    assert b[0] == Read(k) && b[1..] == c;
    InjectUnfold(b, state);
  }

  /** When some key the instruction reads is missing, injection raises the
      runtime's "Context variable not found" error for the first missing key
      in reading order. */
  lemma {:induction false} InjectMissing(ps: seq<Piece>, state: State, i: nat)
    requires i < |PieceReads(ps)| && PieceReads(ps)[i] !in state
    requires forall j :: 0 <= j < i ==> PieceReads(ps)[j] in state
    ensures Inject(ps, state) == Raised(MissingKeyMessage(PieceReads(ps)[i]))
    decreases |ps|
  {
    var rest := PieceReads(ps[1..]);
    var first := if ps[0].Read? then [ps[0].key] else [];
    assert PieceReads(ps) == first + rest;
    if ps[0].Read? && i == 0 {
      assert ps[0].key !in state;
    } else {
      var i' := if ps[0].Read? then i - 1 else i;
      assert rest[i'] == PieceReads(ps)[i];
      assert forall j :: 0 <= j < i' ==> rest[j] == PieceReads(ps)[j + |first|];
      InjectMissing(ps[1..], state, i');
      assert ps[0].Read? ==> ps[0].key == PieceReads(ps)[0] && ps[0].key in state;
    }
  }

  /* ---------------------------------------------------------------------
     Agents.
     --------------------------------------------------------------------- */

  datatype Tool = GetDatabaseSchemaTool | ExecuteSqlAndFormatTool

  datatype Agent =
    | Llm(name: string, instruction: seq<Piece>, tools: seq<Tool>, outputKey: string)
    | Sequential(name: string, subAgents: seq<Agent>)

  /** The LLM stages of an agent in the order a run visits them. */
  function Flatten(a: Agent): (r: seq<Agent>)
    ensures forall i :: 0 <= i < |r| ==> r[i].Llm?
    decreases a
  {
    match a
    case Llm(_, _, _, _) => [a]
    case Sequential(_, subs) => FlattenAll(subs)
  }

  function FlattenAll(subs: seq<Agent>): (r: seq<Agent>)
    ensures forall i :: 0 <= i < |r| ==> r[i].Llm?
    decreases subs
  {
    if |subs| == 0 then [] else Flatten(subs[0]) + FlattenAll(subs[1..])
  }

  function Reads(a: Agent): seq<string> {
    if a.Llm? then Placeholders(RenderPieces(a.instruction)) else []
  }

  /** How a run ends: the events streamed so far, and the message of the
      exception that stopped it, if one did. */
  datatype Run = Run(events: seq<Event>, failure: Option<string>)

  /** Running an agent. `generate` stands for the model: given the stage's
      name and its injected instruction, its final answer or the error the
      call raised. Tool calls happen inside `generate`. */
  function RunAgent(a: Agent, state: State, generate: (string, string) -> Result<string>): (r: Run)
    decreases a, 1
  {
    match a
    case Llm(name, instruction, _, outputKey) =>
      (match Inject(instruction, state)
       case Raised(m) => Run([], Some(m))
       case Ok(text) =>
         match generate(name, text)
         case Raised(m) => Run([], Some(m))
         case Ok(answer) => Run([Event(name, map[outputKey := answer])], None))
    case Sequential(_, subs) => RunAll(subs, state, generate)
  }

  /** A sequential agent: each sub-agent runs on the state its predecessors
      left, and the first failure ends the run. */
  function RunAll(subs: seq<Agent>, state: State, generate: (string, string) -> Result<string>): (r: Run)
    decreases subs, 0
  {
    if |subs| == 0 then Run([], None)
    else
      var first := RunAgent(subs[0], state, generate);
      if first.failure.Some? then first
      else
        var rest := RunAll(subs[1..], ApplyDeltas(state, first.events), generate);
        Run(first.events + rest.events, rest.failure)
  }

  lemma {:induction false} ApplyDeltasAppend(state: State, a: seq<Event>, b: seq<Event>)
    ensures ApplyDeltas(state, a + b) == ApplyDeltas(ApplyDeltas(state, a), b)
    decreases |a|
  {
    if |a| == 0 {
      assert a + b == b;
    } else {
      assert (a + b)[1..] == a[1..] + b;
      ApplyDeltasAppend(state + a[0].delta, a[1..], b);
    }
  }

  /** Running a list of agents one after the other is running their
      concatenation. */
  lemma {:induction false} RunAllAppend(xs: seq<Agent>, ys: seq<Agent>, state: State,
                                        generate: (string, string) -> Result<string>)
    ensures var rx := RunAll(xs, state, generate);
            RunAll(xs + ys, state, generate)
            == if rx.failure.Some? then rx
               else var ry := RunAll(ys, ApplyDeltas(state, rx.events), generate);
                    Run(rx.events + ry.events, ry.failure)
    decreases |xs|
  {
    if |xs| == 0 {
      assert xs + ys == ys;
      assert ApplyDeltas(state, []) == state;
    } else {
      assert (xs + ys)[0] == xs[0];
      assert (xs + ys)[1..] == xs[1..] + ys;
      var first := RunAgent(xs[0], state, generate);
      if first.failure.None? {
        var s1 := ApplyDeltas(state, first.events);
        RunAllAppend(xs[1..], ys, s1, generate);
        var rx' := RunAll(xs[1..], s1, generate);
        ApplyDeltasAppend(state, first.events, rx'.events);
        AppendStep(first.events, rx', RunAll(xs[1..] + ys, s1, generate),
                   RunAll(ys, ApplyDeltas(s1, rx'.events), generate));
      }
    }
  }

  /** Prefixing the first agent's events to both sides of the induction
      hypothesis. */
  lemma AppendStep(e: seq<Event>, rx: Run, r: Run, ry: Run)
    requires r == if rx.failure.Some? then rx else Run(rx.events + ry.events, ry.failure)
    ensures Run(e + r.events, r.failure)
            == if rx.failure.Some? then Run(e + rx.events, rx.failure)
               else Run((e + rx.events) + ry.events, ry.failure)
  {
    assert e + (rx.events + ry.events) == (e + rx.events) + ry.events;
  }

  /** A sequential agent behaves as the flat list of its LLM stages. */
  lemma {:induction false} RunFlatten(a: Agent, state: State, generate: (string, string) -> Result<string>)
    ensures RunAgent(a, state, generate) == RunAll(Flatten(a), state, generate)
    decreases a, 1
  {
    match a
    case Llm(_, _, _, _) =>
      var r := RunAgent(a, state, generate);
      assert [a][1..] == [];
      assert ApplyDeltas(ApplyDeltas(state, r.events), []) == ApplyDeltas(state, r.events);
      assert r.events + [] == r.events;
    case Sequential(_, subs) =>
      RunAllFlatten(subs, state, generate);
  }

  lemma {:induction false} RunAllFlatten(subs: seq<Agent>, state: State, generate: (string, string) -> Result<string>)
    ensures RunAll(subs, state, generate) == RunAll(FlattenAll(subs), state, generate)
    decreases subs, 0
  {
    if |subs| > 0 {
      RunFlatten(subs[0], state, generate);
      RunAllAppend(Flatten(subs[0]), FlattenAll(subs[1..]), state, generate);
      var first := RunAgent(subs[0], state, generate);
      if first.failure.None? {
        RunAllFlatten(subs[1..], ApplyDeltas(state, first.events), generate);
      }
    }
  }

  /* ---------------------------------------------------------------------
     Well-formed pipelines.
     --------------------------------------------------------------------- */

  function OutputKeys(stages: seq<Agent>): (r: seq<string>)
    requires forall i :: 0 <= i < |stages| ==> stages[i].Llm?
    ensures |r| == |stages| && forall i :: 0 <= i < |r| ==> r[i] == stages[i].outputKey
  {
    seq(|stages|, i requires 0 <= i < |stages| => stages[i].outputKey)
  }

  /** Every stage's instruction is well formed, and every key it reads is
      either in the initial state or written by an earlier stage. */
  predicate ReadsWrittenEarlier(stages: seq<Agent>, initial: set<string>)
    requires forall i :: 0 <= i < |stages| ==> stages[i].Llm?
  {
    forall i :: 0 <= i < |stages| ==>
      && WellFormedPieces(stages[i].instruction)
      && forall k :: k in PieceReads(stages[i].instruction) ==>
           k in initial || k in OutputKeys(stages[..i])
  }

  /** One LLM stage whose reads are all in the state and whose model call
      succeeds writes exactly its output key. */
  lemma StageRuns(a: Agent, state: State, generate: (string, string) -> Result<string>)
    requires a.Llm?
    requires forall k :: k in PieceReads(a.instruction) ==> k in state
    requires forall n, t :: generate(n, t).Ok?
    ensures var r := RunAgent(a, state, generate);
            && r.failure.None? && |r.events| == 1
            && r.events[0].author == a.name && r.events[0].delta.Keys == {a.outputKey}
            && ApplyDeltas(state, r.events).Keys == state.Keys + {a.outputKey}
  {
    var r := RunAgent(a, state, generate);
    var answer := generate(a.name, Inject(a.instruction, state).value).value;
    assert r.events == [Event(a.name, map[a.outputKey := answer])];
    assert r.events[1..] == [];
    assert ApplyDeltas(state, r.events) == ApplyDeltas(state + r.events[0].delta, []);
  }

  /** Once the first stage has written its key, the remaining stages still
      read only keys that are present or written before them. */
  lemma ReadsShift(stages: seq<Agent>, initial: set<string>)
    requires |stages| > 0
    requires forall i :: 0 <= i < |stages| ==> stages[i].Llm?
    requires ReadsWrittenEarlier(stages, initial)
    ensures ReadsWrittenEarlier(stages[1..], initial + {stages[0].outputKey})
  {
    var tail := stages[1..];
    var s1 := initial + {stages[0].outputKey};
    forall i, k | 0 <= i < |tail| && k in PieceReads(tail[i].instruction)
      ensures k in s1 || k in OutputKeys(tail[..i])
    {
      assert tail[i] == stages[i + 1];
      assert k in initial || k in OutputKeys(stages[..i + 1]);
      if k in OutputKeys(stages[..i + 1]) && k != stages[0].outputKey {
        var j :| 0 <= j < i + 1 && OutputKeys(stages[..i + 1])[j] == k;
        assert OutputKeys(tail[..i])[j - 1] == k;
      }
    }
  }

  function OutputKeySet(stages: seq<Agent>): set<string>
    requires forall i :: 0 <= i < |stages| ==> stages[i].Llm?
  {
    set i | 0 <= i < |stages| :: stages[i].outputKey
  }

  lemma OutputKeySetSplit(stages: seq<Agent>)
    requires |stages| > 0
    requires forall i :: 0 <= i < |stages| ==> stages[i].Llm?
    ensures OutputKeySet(stages) == {stages[0].outputKey} + OutputKeySet(stages[1..])
  {
    var tail := stages[1..];
    forall x | x in OutputKeySet(stages) ensures x in {stages[0].outputKey} + OutputKeySet(tail) {
      var i :| 0 <= i < |stages| && stages[i].outputKey == x;
      if i > 0 {
        assert tail[i - 1].outputKey == x;
      }
    }
    forall x | x in OutputKeySet(tail) ensures x in OutputKeySet(stages) {
      var i :| 0 <= i < |tail| && tail[i].outputKey == x;
      assert stages[i + 1].outputKey == x;
    }
  }

  /** Appending a stage whose reads are available keeps a pipeline well
      formed. */
  lemma ReadsWrittenEarlierSnoc(stages: seq<Agent>, a: Agent, initial: set<string>)
    requires forall i :: 0 <= i < |stages| ==> stages[i].Llm?
    requires a.Llm?
    requires ReadsWrittenEarlier(stages, initial)
    requires WellFormedPieces(a.instruction)
    requires forall k :: k in PieceReads(a.instruction) ==> k in initial || k in OutputKeys(stages)
    ensures ReadsWrittenEarlier(stages + [a], initial)
  {
    var all := stages + [a];
    forall i | 0 <= i < |all|
      ensures && WellFormedPieces(all[i].instruction)
              && forall k :: k in PieceReads(all[i].instruction) ==> k in initial || k in OutputKeys(all[..i])
    {
      if i < |stages| {
        assert all[i] == stages[i] && all[..i] == stages[..i];
      } else {
        assert all[..i] == stages;
      }
    }
  }

  /** In a pipeline whose reads are always written earlier, no injection
      fails: a run fails only if the model fails, and otherwise each stage
      contributes one event writing its output key. */
  lemma {:induction false} WellFormedRunsToEnd(stages: seq<Agent>, state: State,
                                               generate: (string, string) -> Result<string>)
    requires forall i :: 0 <= i < |stages| ==> stages[i].Llm?
    requires ReadsWrittenEarlier(stages, state.Keys)
    requires forall n, t :: generate(n, t).Ok?
    ensures var r := RunAll(stages, state, generate);
            && r.failure.None?
            && |r.events| == |stages|
            && (forall i :: 0 <= i < |stages| ==>
                  r.events[i].author == stages[i].name && r.events[i].delta.Keys == {stages[i].outputKey})
            && ApplyDeltas(state, r.events).Keys == state.Keys + OutputKeySet(stages)
    decreases |stages|
  {
    if |stages| > 0 {
      var s := stages[0];
      assert stages[..0] == [];
      StageRuns(s, state, generate);
      var first := RunAgent(s, state, generate);
      var s1 := ApplyDeltas(state, first.events);
      ReadsShift(stages, state.Keys);
      WellFormedRunsToEnd(stages[1..], s1, generate);
      var rest := RunAll(stages[1..], s1, generate);
      ApplyDeltasAppend(state, first.events, rest.events);
      OutputKeySetSplit(stages);
      EventsShift(stages, first.events, rest.events);
    }
  }

  /** The first stage's event followed by one event per later stage gives
      one event per stage, in order. */
  lemma EventsShift(stages: seq<Agent>, first: seq<Event>, rest: seq<Event>)
    requires |stages| > 0 && |first| == 1 && |rest| == |stages| - 1
    requires forall i :: 0 <= i < |stages| ==> stages[i].Llm?
    requires first[0].author == stages[0].name && first[0].delta.Keys == {stages[0].outputKey}
    requires forall i :: 0 <= i < |stages| - 1 ==>
               rest[i].author == stages[1..][i].name && rest[i].delta.Keys == {stages[1..][i].outputKey}
    ensures forall i :: 0 <= i < |stages| ==>
              (first + rest)[i].author == stages[i].name && (first + rest)[i].delta.Keys == {stages[i].outputKey}
  {
    forall i | 1 <= i < |stages|
      ensures (first + rest)[i] == rest[i - 1] && stages[1..][i - 1] == stages[i]
    {
    }
  }
}
