/**
 The condition language of workflow transitions: tokens, the recursive-descent evaluator
 (aflow/workflow.py:7612-7728), and the syntax tree it means.
 */
module Conditions {
  import opened Prelude

  datatype Flags = Flags(done: bool, newPlanExists: bool, maxTurnsReached: bool)

  datatype Token = AndAnd | OrOr | Bang | Open | Close | Word(text: string)

  /** Every WorkflowError of the evaluator. */
  datatype Error = BadCondition

  predicate StartsWord(c: char) { 'a' <= c <= 'z' || 'A' <= c <= 'Z' || c == '_' }

  predicate InWord(c: char) { StartsWord(c) || '0' <= c <= '9' }

  /** The length of the word a text starts with. */
  function WordLength(s: string): (n: nat)
    ensures n <= |s|
    ensures forall i | 0 <= i < n :: InWord(s[i])
    ensures n < |s| ==> !InWord(s[n])
  {
    if s == "" || !InWord(s[0]) then 0 else 1 + WordLength(s[1..])
  }

  function Tokenize(s: string): Result<seq<Token>, Error>
    decreases |s|
  {
    if s == "" then Success([])
    else if IsSpace(s[0]) then Tokenize(s[1..])
    else if |s| >= 2 && s[0] == '&' && s[1] == '&' then Prepend(AndAnd, Tokenize(s[2..]))
    else if |s| >= 2 && s[0] == '|' && s[1] == '|' then Prepend(OrOr, Tokenize(s[2..]))
    else if s[0] == '!' then Prepend(Bang, Tokenize(s[1..]))
    else if s[0] == '(' then Prepend(Open, Tokenize(s[1..]))
    else if s[0] == ')' then Prepend(Close, Tokenize(s[1..]))
    else if StartsWord(s[0]) then
      var n := WordLength(s);
      Prepend(Word(s[..n]), Tokenize(s[n..]))
    else Failure(BadCondition)
  }

  function Prepend(t: Token, rest: Result<seq<Token>, Error>): Result<seq<Token>, Error> {
    match rest case Success(ts) => Success([t] + ts) case Failure(e) => Failure(e)
  }

  // ---- the evaluator: it computes while it parses ----

  /** A parsed value and the tokens left. */
  datatype Parsed<T> = Parsed(value: T, rest: seq<Token>)

  predicate Starts(ts: seq<Token>, t: Token) { ts != [] && ts[0] == t }

  function EvalOr(ts: seq<Token>, f: Flags): (r: Result<Parsed<bool>, Error>)
    ensures r.Success? ==> |r.value.rest| < |ts|
    decreases |ts|, 4
  {
    match EvalAnd(ts, f)
    case Failure(e) => Failure(e)
    case Success(p) => EvalOrTail(p.value, p.rest, f)
  }

  function EvalOrTail(left: bool, ts: seq<Token>, f: Flags): (r: Result<Parsed<bool>, Error>)
    ensures r.Success? ==> |r.value.rest| <= |ts|
    decreases |ts|, 5
  {
    if !Starts(ts, OrOr) then Success(Parsed(left, ts))
    else
      match EvalAnd(ts[1..], f)
      case Failure(e) => Failure(e)
      case Success(p) => EvalOrTail(left || p.value, p.rest, f)
  }

  function EvalAnd(ts: seq<Token>, f: Flags): (r: Result<Parsed<bool>, Error>)
    ensures r.Success? ==> |r.value.rest| < |ts|
    decreases |ts|, 3
  {
    match EvalNot(ts, f)
    case Failure(e) => Failure(e)
    case Success(p) => EvalAndTail(p.value, p.rest, f)
  }

  function EvalAndTail(left: bool, ts: seq<Token>, f: Flags): (r: Result<Parsed<bool>, Error>)
    ensures r.Success? ==> |r.value.rest| <= |ts|
    decreases |ts|, 5
  {
    if !Starts(ts, AndAnd) then Success(Parsed(left, ts))
    else
      match EvalNot(ts[1..], f)
      case Failure(e) => Failure(e)
      case Success(p) => EvalAndTail(left && p.value, p.rest, f)
  }

  function EvalNot(ts: seq<Token>, f: Flags): (r: Result<Parsed<bool>, Error>)
    ensures r.Success? ==> |r.value.rest| < |ts|
    decreases |ts|, 2
  {
    if Starts(ts, Bang) then
      match EvalNot(ts[1..], f)
      case Failure(e) => Failure(e)
      case Success(p) => Success(Parsed(!p.value, p.rest))
    else EvalPrimary(ts, f)
  }

  function EvalPrimary(ts: seq<Token>, f: Flags): (r: Result<Parsed<bool>, Error>)
    ensures r.Success? ==> |r.value.rest| < |ts|
    decreases |ts|, 1
  {
    if ts == [] then Failure(BadCondition)
    else
      match ts[0]
      case Open =>
        (match EvalOr(ts[1..], f)
         case Failure(e) => Failure(e)
         case Success(p) =>
           if Starts(p.rest, Close) then Success(Parsed(p.value, p.rest[1..])) else Failure(BadCondition))
      case Word(text) =>
        (match SymbolOf(text)
         case None => Failure(BadCondition)
         case Some(symbol) => Success(Parsed(symbol.Value(f), ts[1..])))
      case _ => Failure(BadCondition)
  }

  function EvalTokens(ts: seq<Token>, f: Flags): Result<bool, Error> {
    match EvalOr(ts, f)
    case Failure(e) => Failure(e)
    case Success(p) => if p.rest == [] then Success(p.value) else Failure(BadCondition)
  }

  /** evaluate_condition. */
  function Evaluate(expression: string, f: Flags): Result<bool, Error> {
    match Tokenize(expression)
    case Failure(e) => Failure(e)
    case Success(ts) => EvalTokens(ts, f)
  }

  // ---- what a condition means ----

  datatype Symbol = Done | NewPlanExists | MaxTurnsReached {
    function Value(f: Flags): bool {
      match this
      case Done => f.done
      case NewPlanExists => f.newPlanExists
      case MaxTurnsReached => f.maxTurnsReached
    }

    function Text(): string {
      match this
      case Done => "DONE"
      case NewPlanExists => "NEW_PLAN_EXISTS"
      case MaxTurnsReached => "MAX_TURNS_REACHED"
    }
  }

  function SymbolOf(text: string): Option<Symbol> {
    if text == "DONE" then Some(Done)
    else if text == "NEW_PLAN_EXISTS" then Some(NewPlanExists)
    else if text == "MAX_TURNS_REACHED" then Some(MaxTurnsReached)
    else None
  }

  /** Group is a condition in parentheses of its own, needed or not. */
  datatype Cond = Is(symbol: Symbol) | Not(c: Cond) | And(l: Cond, r: Cond) | Or(l: Cond, r: Cond) | Group(c: Cond) {
    function Holds(f: Flags): bool {
      match this
      case Is(s) => if s.Done? then f.done else if s.NewPlanExists? then f.newPlanExists else f.maxTurnsReached
      case Not(c) => !c.Holds(f)
      case And(l, r) => l.Holds(f) && r.Holds(f)
      case Or(l, r) => l.Holds(f) || r.Holds(f)
      case Group(c) => c.Holds(f)
    }
  }

  /** The tokens of a condition: && binds tighter than ||, both associate to the left. */
  function RenderOr(c: Cond): seq<Token>
    decreases c, 3
  {
    if c.Or? then RenderOr(c.l) + [OrOr] + RenderAnd(c.r) else RenderAnd(c)
  }

  function RenderAnd(c: Cond): seq<Token>
    decreases c, 2
  {
    if c.And? then RenderAnd(c.l) + [AndAnd] + RenderNot(c.r) else RenderNot(c)
  }

  function RenderNot(c: Cond): seq<Token>
    decreases c, 1
  {
    match c
    case Not(d) => [Bang] + RenderNot(d)
    case Is(s) => [Word(s.Text())]
    case Group(d) => [Open] + RenderOr(d) + [Close]
    case And(l, r) => [Open] + (RenderAnd(l) + [AndAnd] + RenderNot(r)) + [Close]
    case Or(l, r) => [Open] + (RenderOr(l) + [OrOr] + RenderAnd(r)) + [Close]
  }

  lemma {:induction false} EvalRenderedOr(c: Cond, rest: seq<Token>, f: Flags)
    requires !Starts(rest, AndAnd)
    ensures EvalOr(RenderOr(c) + rest, f) == EvalOrTail(c.Holds(f), rest, f)
    decreases c, 3
  {
    if c.Or? {
      var more := [OrOr] + RenderAnd(c.r) + rest;
      EvalRenderedOr(c.l, more, f);
      assert RenderOr(c) + rest == RenderOr(c.l) + more;
      assert more[1..] == RenderAnd(c.r) + rest;
      EvalRenderedAnd(c.r, rest, f);
    } else {
      EvalRenderedAnd(c, rest, f);
    }
  }

  lemma {:induction false} EvalRenderedAnd(c: Cond, rest: seq<Token>, f: Flags)
    ensures EvalAnd(RenderAnd(c) + rest, f) == EvalAndTail(c.Holds(f), rest, f)
    decreases c, 2
  {
    if c.And? {
      var more := [AndAnd] + RenderNot(c.r) + rest;
      EvalRenderedAnd(c.l, more, f);
      assert RenderAnd(c) + rest == RenderAnd(c.l) + more;
      assert more[1..] == RenderNot(c.r) + rest;
      EvalRenderedNot(c.r, rest, f);
    } else {
      EvalRenderedNot(c, rest, f);
    }
  }

  lemma {:induction false} EvalRenderedNot(c: Cond, rest: seq<Token>, f: Flags)
    ensures EvalNot(RenderNot(c) + rest, f) == Success(Parsed(c.Holds(f), rest))
    decreases c, 1
  {
    var ts := RenderNot(c) + rest;
    match c
    case Not(d) =>
      assert ts[1..] == RenderNot(d) + rest;
      EvalRenderedNot(d, rest, f);
    case Is(s) =>
      assert ts[0] == Word(s.Text()) && ts[1..] == rest;
      assert SymbolOf(s.Text()) == Some(s) by {
        assert |"DONE"| == 4 && |"NEW_PLAN_EXISTS"| == 15 && |"MAX_TURNS_REACHED"| == 17;
      }
    case Group(d) =>
      EvalRenderedOr(d, [Close] + rest, f);
      Parenthesized(RenderOr(d), c.Holds(f), rest, f);
    case And(l, r) =>
      EvalInsideAnd(c, [Close] + rest, f);
      Parenthesized(RenderAnd(l) + [AndAnd] + RenderNot(r), c.Holds(f), rest, f);
      assert ts == [Open] + (RenderAnd(l) + [AndAnd] + RenderNot(r)) + [Close] + rest;
    case Or(l, r) =>
      EvalInsideOr(c, [Close] + rest, f);
      Parenthesized(RenderOr(l) + [OrOr] + RenderAnd(r), c.Holds(f), rest, f);
      assert ts == [Open] + (RenderOr(l) + [OrOr] + RenderAnd(r)) + [Close] + rest;
  }

  lemma EvalInsideAnd(c: Cond, rest: seq<Token>, f: Flags)
    requires c.And? && !Starts(rest, AndAnd) && !Starts(rest, OrOr)
    ensures EvalOr(RenderAnd(c.l) + [AndAnd] + RenderNot(c.r) + rest, f) == Success(Parsed(c.Holds(f), rest))
    decreases c, 0
  {
    var more := [AndAnd] + RenderNot(c.r) + rest;
    var ts := RenderAnd(c.l) + [AndAnd] + RenderNot(c.r) + rest;
    assert ts == RenderAnd(c.l) + more;
    EvalRenderedAnd(c.l, more, f);
    assert more[1..] == RenderNot(c.r) + rest;
    EvalRenderedNot(c.r, rest, f);
    assert EvalAnd(ts, f) == Success(Parsed(c.Holds(f), rest));
  }

  lemma EvalInsideOr(c: Cond, rest: seq<Token>, f: Flags)
    requires c.Or? && !Starts(rest, AndAnd) && !Starts(rest, OrOr)
    ensures EvalOr(RenderOr(c.l) + [OrOr] + RenderAnd(c.r) + rest, f) == Success(Parsed(c.Holds(f), rest))
    decreases c, 0
  {
    var more := [OrOr] + RenderAnd(c.r) + rest;
    assert RenderOr(c.l) + [OrOr] + RenderAnd(c.r) + rest == RenderOr(c.l) + more;
    EvalRenderedOr(c.l, more, f);
    assert more[1..] == RenderAnd(c.r) + rest;
    EvalRenderedAnd(c.r, rest, f);
  }

  lemma Parenthesized(inner: seq<Token>, v: bool, rest: seq<Token>, f: Flags)
    requires EvalOr(inner + ([Close] + rest), f) == Success(Parsed(v, [Close] + rest))
    ensures EvalNot([Open] + inner + [Close] + rest, f) == Success(Parsed(v, rest))
  {
    var ts := [Open] + inner + [Close] + rest;
    assert ts[1..] == inner + ([Close] + rest);
    assert ([Close] + rest)[1..] == rest;
    assert EvalPrimary(ts, f) == Success(Parsed(v, rest));
  }

  /** The evaluator gives every condition its boolean meaning, with the usual precedence. */
  lemma EvaluatesMeaning(c: Cond, f: Flags)
    ensures EvalTokens(RenderOr(c), f) == Success(c.Holds(f))
  {
    EvalRenderedOr(c, [], f);
    assert RenderOr(c) + [] == RenderOr(c);
  }

  lemma {:induction false} WholeWord(w: string)
    requires forall i | 0 <= i < |w| :: InWord(w[i])
    ensures WordLength(w) == |w|
  {
    if w != "" {
      WholeWord(w[1..]);
    }
  }

  lemma LetterIsPlain(c: char)
    requires StartsWord(c)
    ensures !IsSpace(c) && c != '&' && c != '|' && c != '!' && c != '(' && c != ')'
  {
  }

  lemma WordTokenizes(w: string)
    requires w != "" && StartsWord(w[0]) && WordLength(w) == |w|
    ensures Tokenize(w) == Success([Word(w)])
  {
    LetterIsPlain(w[0]);
    assert w[..|w|] == w && w[|w|..] == "";
    assert [Word(w)] + [] == [Word(w)];
  }

  lemma SymbolTextIsWord(s: Symbol)
    ensures IsWord(s.Text()) && WordLength(s.Text()) == |s.Text()|
  {
    assert forall i | 0 <= i < |s.Text()| :: InWord(s.Text()[i]);
    WholeWord(s.Text());
  }

  /** A condition that is one symbol evaluates to that symbol. */
  lemma SymbolEvaluates(s: Symbol, f: Flags)
    ensures Evaluate(s.Text(), f) == Success(Is(s).Holds(f))
  {
    SymbolTextIsWord(s);
    WordTokenizes(s.Text());
    EvaluatesMeaning(Is(s), f);
    assert RenderOr(Is(s)) == [Word(s.Text())];
  }

  /** Each of the three names evaluates to the flag it names. */
  lemma NamesEvaluate(f: Flags)
    ensures Evaluate("DONE", f) == Success(f.done)
    ensures Evaluate("NEW_PLAN_EXISTS", f) == Success(f.newPlanExists)
    ensures Evaluate("MAX_TURNS_REACHED", f) == Success(f.maxTurnsReached)
  {
    SymbolEvaluates(Done, f);
    SymbolEvaluates(NewPlanExists, f);
    SymbolEvaluates(MaxTurnsReached, f);
  }

  /** Any other single word is no condition. */
  lemma OtherNamesFail(w: string, f: Flags)
    requires IsWord(w)
    ensures Evaluate(w, f).Success? <==> w in {"DONE", "NEW_PLAN_EXISTS", "MAX_TURNS_REACHED"}
  {
    WholeWord(w);
    WordTokenizes(w);
    NamesEvaluate(f);
    if SymbolOf(w).None? {
      var ts := [Word(w)];
      assert EvalPrimary(ts, f).Failure?;
      assert EvalNot(ts, f).Failure?;
      assert EvalAnd(ts, f).Failure?;
    }
  }

  // ---- everything the evaluator accepts is a condition ----

  lemma {:induction false} ParsedOr(ts: seq<Token>, f: Flags) returns (c: Cond)
    requires EvalOr(ts, f).Success?
    ensures RenderOr(c) + EvalOr(ts, f).value.rest == ts && EvalOr(ts, f).value.value == c.Holds(f)
    decreases |ts|, 4
  {
    var first := ParsedAnd(ts, f);
    c := ParsedOrTail(ts, first, EvalAnd(ts, f).value.rest, f);
  }

  lemma Regroup(left: seq<Token>, rest: seq<Token>, right: seq<Token>, more: seq<Token>)
    requires rest != [] && rest[1..] == right + more
    ensures left + rest == left + [rest[0]] + right + more
  {
    assert rest == [rest[0]] + rest[1..];
  }

  lemma {:induction false} ParsedOrTail(ts: seq<Token>, left: Cond, rest: seq<Token>, f: Flags) returns (c: Cond)
    requires RenderOr(left) + rest == ts && EvalOrTail(left.Holds(f), rest, f).Success? && |rest| < |ts|
    ensures var p := EvalOrTail(left.Holds(f), rest, f).value;
            RenderOr(c) + p.rest == ts && p.value == c.Holds(f)
    decreases |rest|, 5
  {
    if !Starts(rest, OrOr) {
      return left;
    }
    var right := ParsedAnd(rest[1..], f);
    var p := EvalAnd(rest[1..], f).value;
    Regroup(RenderOr(left), rest, RenderAnd(right), p.rest);
    c := ParsedOrTail(ts, Or(left, right), p.rest, f);
  }

  lemma {:induction false} ParsedAnd(ts: seq<Token>, f: Flags) returns (c: Cond)
    requires EvalAnd(ts, f).Success?
    ensures !c.Or? && RenderAnd(c) + EvalAnd(ts, f).value.rest == ts && EvalAnd(ts, f).value.value == c.Holds(f)
    decreases |ts|, 3
  {
    var first := ParsedNot(ts, f);
    c := ParsedAndTail(ts, first, EvalNot(ts, f).value.rest, f);
  }

  lemma {:induction false} ParsedAndTail(ts: seq<Token>, left: Cond, rest: seq<Token>, f: Flags) returns (c: Cond)
    requires !left.Or? && RenderAnd(left) + rest == ts && EvalAndTail(left.Holds(f), rest, f).Success?
    requires |rest| < |ts|
    ensures var p := EvalAndTail(left.Holds(f), rest, f).value;
            !c.Or? && RenderAnd(c) + p.rest == ts && p.value == c.Holds(f)
    decreases |rest|, 5
  {
    if !Starts(rest, AndAnd) {
      return left;
    }
    var right := ParsedNot(rest[1..], f);
    var p := EvalNot(rest[1..], f).value;
    Regroup(RenderAnd(left), rest, RenderNot(right), p.rest);
    c := ParsedAndTail(ts, And(left, right), p.rest, f);
  }

  lemma {:induction false} ParsedNot(ts: seq<Token>, f: Flags) returns (c: Cond)
    requires EvalNot(ts, f).Success?
    ensures !c.Or? && !c.And?
    ensures RenderNot(c) + EvalNot(ts, f).value.rest == ts && EvalNot(ts, f).value.value == c.Holds(f)
    decreases |ts|, 2
  {
    if Starts(ts, Bang) {
      var inner := ParsedNot(ts[1..], f);
      assert ts == [Bang] + ts[1..];
      c := Not(inner);
    } else if ts[0] == Open {
      var inner := ParsedOr(ts[1..], f);
      var p := EvalOr(ts[1..], f).value;
      assert ts == [Open] + ts[1..] && p.rest == [Close] + p.rest[1..];
      c := Group(inner);
    } else {
      c := Is(SymbolOf(ts[0].text).value);
      assert ts == [ts[0]] + ts[1..];
    }
  }

  /** Tokens that evaluate under some flags are those of one condition, and mean it under all flags. */
  lemma AcceptedIsACondition(ts: seq<Token>, f: Flags) returns (c: Cond)
    requires EvalTokens(ts, f).Success?
    ensures ts == RenderOr(c) && forall g: Flags :: EvalTokens(ts, g) == Success(c.Holds(g))
  {
    c := ParsedOr(ts, f);
    assert RenderOr(c) + [] == RenderOr(c);
    forall g: Flags ensures EvalTokens(ts, g) == Success(c.Holds(g)) {
      EvaluatesMeaning(c, g);
    }
  }

  // ---- texts ----

  function Spelled(t: Token): string {
    match t
    case AndAnd => "&&"
    case OrOr => "||"
    case Bang => "!"
    case Open => "("
    case Close => ")"
    case Word(text) => text
  }

  predicate IsWord(w: string) { w != "" && StartsWord(w[0]) && forall i | 0 <= i < |w| :: InWord(w[i]) }

  predicate Blanks(gap: string) { forall i | 0 <= i < |gap| :: IsSpace(gap[i]) }

  /** A text with these tokens: a gap before each token and after the last; two words need one between them. */
  predicate Writes(gaps: seq<string>, ts: seq<Token>) {
    && |gaps| == |ts| + 1
    && (forall i | 0 <= i < |gaps| :: Blanks(gaps[i]))
    && (forall i | 0 <= i < |ts| && ts[i].Word? :: IsWord(ts[i].text))
    && (forall i | 0 <= i < |ts| - 1 && ts[i].Word? && ts[i + 1].Word? :: gaps[i + 1] != "")
  }

  function TextOf(gaps: seq<string>, ts: seq<Token>): string
    requires |gaps| == |ts| + 1
    decreases ts
  {
    if ts == [] then gaps[0] else gaps[0] + (Spelled(ts[0]) + TextOf(gaps[1..], ts[1..]))
  }

  lemma {:induction false} BlanksAreSkipped(gap: string, rest: string)
    requires Blanks(gap)
    ensures Tokenize(gap + rest) == Tokenize(rest)
  {
    if gap == "" {
      assert gap + rest == rest;
    } else {
      BlanksAreSkipped(gap[1..], rest);
      assert (gap + rest)[1..] == gap[1..] + rest;
    }
  }

  lemma {:induction false} WordEnds(w: string, rest: string)
    requires forall i | 0 <= i < |w| :: InWord(w[i])
    requires rest != "" ==> !InWord(rest[0])
    ensures WordLength(w + rest) == |w|
  {
    if w == "" {
      assert w + rest == rest;
    } else {
      assert (w + rest)[1..] == w[1..] + rest;
      WordEnds(w[1..], rest);
    }
  }

  /** What follows a word does not continue it. */
  lemma WordStopsThere(gaps: seq<string>, ts: seq<Token>)
    requires Writes(gaps, ts) && (ts != [] && ts[0].Word? ==> gaps[0] != "")
    ensures TextOf(gaps, ts) != "" ==> !InWord(TextOf(gaps, ts)[0])
  {
    if gaps[0] != "" {
      assert IsSpace(gaps[0][0]);
    }
  }

  lemma TokenIsRead(t: Token, rest: string)
    requires t.Word? ==> IsWord(t.text) && (rest != "" ==> !InWord(rest[0]))
    ensures Tokenize(Spelled(t) + rest) == Prepend(t, Tokenize(rest))
  {
    var s := Spelled(t) + rest;
    assert s[|Spelled(t)|..] == rest;
    if t.Word? {
      WordEnds(t.text, rest);
      LetterIsPlain(s[0]);
      assert s[..|t.text|] == t.text;
    }
  }

  lemma WritesRest(gaps: seq<string>, ts: seq<Token>)
    requires Writes(gaps, ts) && ts != []
    ensures Writes(gaps[1..], ts[1..]) && (ts[0].Word? && |ts| > 1 && ts[1].Word? ==> gaps[1] != "")
  {
  }

  lemma FirstTokenIsRead(gaps: seq<string>, ts: seq<Token>)
    requires Writes(gaps, ts) && ts != [] && Writes(gaps[1..], ts[1..])
    ensures Tokenize(TextOf(gaps, ts)) == Prepend(ts[0], Tokenize(TextOf(gaps[1..], ts[1..])))
  {
    var rest := TextOf(gaps[1..], ts[1..]);
    BlanksAreSkipped(gaps[0], Spelled(ts[0]) + rest);
    if ts[0].Word? {
      WritesRest(gaps, ts);
      WordStopsThere(gaps[1..], ts[1..]);
    }
    TokenIsRead(ts[0], rest);
  }

  /** Tokenizing the text of any token sequence, whatever its blanks, gives the tokens back. */
  lemma {:induction false} TextTokenizes(gaps: seq<string>, ts: seq<Token>)
    requires Writes(gaps, ts)
    ensures Tokenize(TextOf(gaps, ts)) == Success(ts)
    decreases ts
  {
    if ts == [] {
      BlanksAreSkipped(gaps[0], "");
      assert gaps[0] + "" == gaps[0];
    } else {
      WritesRest(gaps, ts);
      FirstTokenIsRead(gaps, ts);
      TextTokenizes(gaps[1..], ts[1..]);
      assert [ts[0]] + ts[1..] == ts;
    }
  }

  /** The words are words, and no two of them stand next to each other. */
  predicate Wordy(ts: seq<Token>) {
    && (forall i | 0 <= i < |ts| && ts[i].Word? :: IsWord(ts[i].text))
    && (forall i | 0 <= i < |ts| - 1 :: !(ts[i].Word? && ts[i + 1].Word?))
  }

  lemma JoinWordy(a: seq<Token>, op: Token, b: seq<Token>)
    requires Wordy(a) && Wordy(b) && !op.Word?
    ensures Wordy(a + [op] + b)
  {
  }

  lemma {:induction false} RenderedOrIsWordy(c: Cond)
    ensures Wordy(RenderOr(c))
    decreases c, 3
  {
    if c.Or? {
      RenderedOrIsWordy(c.l);
      RenderedAndIsWordy(c.r);
      JoinWordy(RenderOr(c.l), OrOr, RenderAnd(c.r));
    } else {
      RenderedAndIsWordy(c);
    }
  }

  lemma {:induction false} RenderedAndIsWordy(c: Cond)
    ensures Wordy(RenderAnd(c))
    decreases c, 2
  {
    if c.And? {
      RenderedAndIsWordy(c.l);
      RenderedNotIsWordy(c.r);
      JoinWordy(RenderAnd(c.l), AndAnd, RenderNot(c.r));
    } else {
      RenderedNotIsWordy(c);
    }
  }

  lemma {:induction false} RenderedNotIsWordy(c: Cond)
    ensures Wordy(RenderNot(c))
    decreases c, 1
  {
    match c
    case Not(d) =>
      RenderedNotIsWordy(d);
      JoinWordy([], Bang, RenderNot(d));
      assert [] + [Bang] + RenderNot(d) == RenderNot(c);
    case Is(s) =>
      SymbolTextIsWord(s);
    case Group(d) =>
      RenderedOrIsWordy(d);
      Parenthesize(RenderOr(d));
    case And(l, r) =>
      RenderedAndIsWordy(l);
      RenderedNotIsWordy(r);
      JoinWordy(RenderAnd(l), AndAnd, RenderNot(r));
      Parenthesize(RenderAnd(l) + [AndAnd] + RenderNot(r));
    case Or(l, r) =>
      RenderedOrIsWordy(l);
      RenderedAndIsWordy(r);
      JoinWordy(RenderOr(l), OrOr, RenderAnd(r));
      Parenthesize(RenderOr(l) + [OrOr] + RenderAnd(r));
  }

  lemma Parenthesize(inner: seq<Token>)
    requires Wordy(inner)
    ensures Wordy([Open] + inner + [Close])
  {
    JoinWordy([], Open, inner);
    assert [] + [Open] + inner == [Open] + inner;
    JoinWordy([Open] + inner, Close, []);
    assert [Open] + inner + [Close] + [] == [Open] + inner + [Close];
  }

  /** A text that evaluates under some flags means one condition under all flags. */
  lemma AcceptedTextIsACondition(expression: string, f: Flags) returns (c: Cond)
    requires Evaluate(expression, f).Success?
    ensures forall g: Flags :: Evaluate(expression, g) == Success(c.Holds(g))
    ensures Tokenize(expression) == Success(RenderOr(c))
  {
    c := AcceptedIsACondition(Tokenize(expression).value, f);
  }

  /** Every text of a condition, however it is spaced, evaluates to the condition's boolean meaning. */
  lemma TextMeansCondition(c: Cond, gaps: seq<string>, f: Flags)
    requires |gaps| == |RenderOr(c)| + 1 && forall i | 0 <= i < |gaps| :: Blanks(gaps[i])
    ensures Evaluate(TextOf(gaps, RenderOr(c)), f) == Success(c.Holds(f))
  {
    RenderedOrIsWordy(c);
    TextTokenizes(gaps, RenderOr(c));
    EvaluatesMeaning(c, f);
  }

  // ---- texts combine ----

  function Joined(a: Result<seq<Token>, Error>, b: Result<seq<Token>, Error>): Result<seq<Token>, Error> {
    if a.Success? && b.Success? then Success(a.value + b.value) else Failure(BadCondition)
  }

  lemma JoinedNothing(b: Result<seq<Token>, Error>)
    ensures Joined(Tokenize(""), b) == b
  {
    match b
    case Success(ts) => assert [] + ts == ts;
    case Failure(e) => assert e.BadCondition?;
  }

  lemma JoinedFirst(t: Token, a: Result<seq<Token>, Error>, b: Result<seq<Token>, Error>)
    requires a.Success?
    ensures Prepend(t, Joined(a, b)) == Joined(Prepend(t, a), b)
  {
    if b.Success? {
      assert [t] + (a.value + b.value) == [t] + a.value + b.value;
    }
  }

  lemma FirstIsRead(a: string) returns (t: Token, rest: string)
    requires a != "" && !IsSpace(a[0]) && Tokenize(a).Success?
    ensures a == Spelled(t) + rest && Spelled(t) != "" && (t.Word? ==> IsWord(t.text))
    ensures t.Word? && rest != "" ==> !InWord(rest[0])
    ensures Tokenize(a) == Prepend(t, Tokenize(rest)) && Tokenize(rest).Success?
  {
    var n := if StartsWord(a[0]) then WordLength(a) else if a[0] == '&' || a[0] == '|' then 2 else 1;
    if StartsWord(a[0]) {
      LetterIsPlain(a[0]);
    }
    t, rest := Tokenize(a).value[0], a[n..];
    assert a[..n] + a[n..] == a;
  }

  lemma FirstStays(a: string, t: Token, rest: string, b: string)
    requires a == Spelled(t) + rest && (t.Word? ==> IsWord(t.text))
    requires t.Word? && rest != "" ==> !InWord(rest[0])
    requires b != "" ==> !InWord(b[0])
    ensures Tokenize(a + b) == Prepend(t, Tokenize(rest + b))
  {
    assert a + b == Spelled(t) + (rest + b);
    TokenIsRead(t, rest + b);
  }

  /** Text that tokenizes keeps its tokens when text follows that cannot continue its last word. */
  lemma {:induction false} TokensJoin(a: string, b: string)
    requires Tokenize(a).Success? && (b != "" ==> !InWord(b[0]))
    ensures Tokenize(a + b) == Joined(Tokenize(a), Tokenize(b))
    decreases |a|
  {
    if a == "" {
      assert a + b == b;
      JoinedNothing(Tokenize(b));
    } else if IsSpace(a[0]) {
      var gap, rest := a[..1], a[1..];
      assert a == gap + rest && a + b == gap + (rest + b);
      BlanksAreSkipped(gap, rest);
      BlanksAreSkipped(gap, rest + b);
      TokensJoin(rest, b);
    } else {
      var t, rest := FirstIsRead(a);
      TokensJoin(rest, b);
      FirstStays(a, t, rest, b);
      JoinedFirst(t, Tokenize(rest), Tokenize(b));
    }
  }

  lemma TokensAppend(a: string, b: string, x: seq<Token>, y: seq<Token>)
    requires Tokenize(a) == Success(x) && Tokenize(b) == Success(y) && (b != "" ==> !InWord(b[0]))
    ensures Tokenize(a + b) == Success(x + y)
  {
    TokensJoin(a, b);
  }

  lemma OperatorFollows(op: Token, b: string, y: seq<Token>)
    requires Tokenize(b) == Success(y) && !op.Word?
    ensures var rest := Spelled(op) + b; Tokenize(rest) == Success([op] + y) && rest != "" && !InWord(rest[0])
  {
    assert Spelled(op) != "" && !InWord(Spelled(op)[0]);
    assert (Spelled(op) + b)[0] == Spelled(op)[0];
    TokenIsRead(op, b);
  }

  /** Putting one token between two texts puts it between their tokens. */
  lemma TokensBetween(a: string, op: Token, b: string, x: seq<Token>, y: seq<Token>)
    requires Tokenize(a) == Success(x) && Tokenize(b) == Success(y) && !op.Word?
    ensures Tokenize(a + Spelled(op) + b) == Success(x + [op] + y)
  {
    OperatorFollows(op, b, y);
    TokensAppend(a, Spelled(op) + b, x, [op] + y);
    assert a + Spelled(op) + b == a + (Spelled(op) + b);
    assert x + ([op] + y) == x + [op] + y;
  }

  lemma {:induction false} EvalMoreAlternatives(left: bool, c: Cond, rest: seq<Token>, f: Flags)
    requires !Starts(rest, AndAnd)
    ensures EvalOrTail(left, [OrOr] + RenderOr(c) + rest, f) == EvalOrTail(left || c.Holds(f), rest, f)
    decreases c
  {
    if c.Or? {
      var more := [OrOr] + RenderAnd(c.r) + rest;
      EvalMoreAlternatives(left, c.l, more, f);
      assert [OrOr] + RenderOr(c) + rest == [OrOr] + RenderOr(c.l) + more;
      assert more[1..] == RenderAnd(c.r) + rest;
      EvalRenderedAnd(c.r, rest, f);
    } else {
      assert ([OrOr] + RenderOr(c) + rest)[1..] == RenderAnd(c) + rest;
      EvalRenderedAnd(c, rest, f);
    }
  }

  /** Leading blanks do not matter. */
  lemma BlanksDoNotMatter(a: string, f: Flags)
    ensures Evaluate(" " + a, f) == Evaluate(a, f) == Evaluate("\t" + a, f) == Evaluate("\n" + a, f)
  {
    BlanksAreSkipped(" ", a);
    BlanksAreSkipped("\t", a);
    BlanksAreSkipped("\n", a);
  }

  /**
   || between any two conditions is their disjunction, however they are written: nothing binds
   less tightly.
   */
  lemma TextsDisjoin(a: string, b: string, f: Flags)
    requires Evaluate(a, f).Success? && Evaluate(b, f).Success?
    ensures Evaluate(a + "||" + b, f) == Success(Evaluate(a, f).value || Evaluate(b, f).value)
  {
    var c := AcceptedTextIsACondition(a, f);
    var d := AcceptedTextIsACondition(b, f);
    TokensBetween(a, OrOr, b, RenderOr(c), RenderOr(d));
    var tail := [OrOr] + RenderOr(d);
    EvalRenderedOr(c, tail, f);
    EvalMoreAlternatives(c.Holds(f), d, [], f);
    assert tail + [] == tail;
    assert RenderOr(c) + [OrOr] + RenderOr(d) == RenderOr(c) + tail;
  }

  /** Parentheses around a condition make it one operand. */
  lemma TextsGroup(a: string, f: Flags) returns (c: Cond)
    requires Evaluate(a, f).Success?
    ensures Tokenize("(" + a + ")") == Success(RenderNot(Group(c))) && c.Holds(f) == Evaluate(a, f).value
    ensures Evaluate("(" + a + ")", f) == Evaluate(a, f)
  {
    c := AcceptedTextIsACondition(a, f);
    TokensBetween("", Open, a, [], RenderOr(c));
    assert "" + "(" + a == "(" + a && [] + [Open] + RenderOr(c) == [Open] + RenderOr(c);
    TokensBetween("(" + a, Close, "", [Open] + RenderOr(c), []);
    assert ("(" + a) + ")" + "" == "(" + a + ")";
    assert [Open] + RenderOr(c) + [Close] + [] == RenderNot(Group(c));
    EvaluatesMeaning(Group(c), f);
  }

  lemma TextsNot(x: string, c: Cond, f: Flags)
    requires Tokenize(x) == Success(RenderNot(c))
    ensures Tokenize("!" + x) == Success(RenderNot(Not(c)))
  {
    TokensBetween("", Bang, x, [], RenderNot(c));
    assert "" + "!" + x == "!" + x;
    assert [] + [Bang] + RenderNot(c) == RenderNot(Not(c));
  }

  lemma RenderedPair(c: Cond, d: Cond)
    requires !c.And?
    ensures RenderOr(And(c, d)) == RenderNot(c) + [AndAnd] + RenderNot(d)
  {
    assert RenderAnd(c) == RenderNot(c);
    assert RenderOr(And(c, d)) == RenderAnd(And(c, d));
  }

  lemma TextsAnd(x: string, y: string, c: Cond, d: Cond, f: Flags)
    requires Tokenize(x) == Success(RenderNot(c)) && Tokenize(y) == Success(RenderNot(d)) && !c.And?
    ensures Evaluate(x + "&&" + y, f) == Success(c.Holds(f) && d.Holds(f))
  {
    var text := x + "&&" + y;
    assert Tokenize(text) == Success(RenderOr(And(c, d))) by {
      TokensBetween(x, AndAnd, y, RenderNot(c), RenderNot(d));
      RenderedPair(c, d);
    }
    EvaluatesMeaning(And(c, d), f);
  }

  /** ! before a group negates it. */
  lemma TextsNegate(a: string, f: Flags)
    requires Evaluate(a, f).Success?
    ensures Evaluate("!(" + a + ")", f) == Success(!Evaluate(a, f).value)
  {
    var c := TextsGroup(a, f);
    TextsNot("(" + a + ")", Group(c), f);
    assert "!(" + a + ")" == "!" + ("(" + a + ")");
    EvaluatesMeaning(Not(Group(c)), f);
  }

  /** && conjoins what stands beside it, a negation as a whole. */
  lemma TextsConjoin(a: string, b: string, f: Flags)
    requires Evaluate(a, f).Success? && Evaluate(b, f).Success?
    ensures Evaluate("(" + a + ")&&(" + b + ")", f) == Success(Evaluate(a, f).value && Evaluate(b, f).value)
    ensures Evaluate("!(" + a + ")&&(" + b + ")", f) == Success(!Evaluate(a, f).value && Evaluate(b, f).value)
  {
    var c := TextsGroup(a, f);
    var d := TextsGroup(b, f);
    var x, y := "(" + a + ")", "(" + b + ")";
    TextsNot(x, Group(c), f);
    TextsAnd(x, y, Group(c), Group(d), f);
    TextsAnd("!" + x, y, Not(Group(c)), Group(d), f);
    assert x + "&&" + y == "(" + a + ")&&(" + b + ")";
    assert "!" + x + "&&" + y == "!(" + a + ")&&(" + b + ")";
  }
}
