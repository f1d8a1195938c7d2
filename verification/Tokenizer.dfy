/**
 The JSON tokenizer of src/jsmn.h in the build src/json.c uses (STRICT and PARENT_LINKS).

 `Run` is the tokenizer as a function over immutable parser states; class `Parser` is the code itself, with its
 cursor, its token array and its `toksuper` link, proved to compute `Run`. A state has what the C struct has, and
 a step is one turn of the loop over the input, so an error is reported at the same character and with the same
 code.
 */
module Tokenizer {
  import opened Bytes

  datatype Kind = Object | Array | Str | Primitive

  /** `end == -1` marks a container whose closing bracket has not been met. */
  datatype Token = Token(kind: Kind, start: int, end: int, size: int, parent: int)

  /** The three error returns: -1, -2 and -3. */
  datatype Fault = NoMem | Inval | Part {
    function Code(): (rc: int)
      ensures rc < 0
    {
      match this
      case NoMem => -1
      case Inval => -2
      case Part => -3
    }
  }

  datatype State = State(pos: nat, toks: seq<Token>, super: int)

  datatype Outcome = Done(s: State) | Failed(f: Fault)

  datatype Scan = At(p: nat) | Bad(f: Fault)

  const INIT := State(0, [], -1)

  // ------------------------------------------------------------------ scanners

  predicate IsDelimiter(c: byte) {
    IsSpace(c) || c == COMMA || c == RBRACKET || c == RBRACE
  }

  predicate StartsPrimitive(c: byte) {
    c == MINUS || IsDigit(c) || c == LOWER_T || c == LOWER_F || c == LOWER_N
  }

  predicate IsShortEscape(c: byte) {
    c == QUOTE || c == SLASH || c == BACKSLASH || c == LOWER_B || c == LOWER_F || c == LOWER_R || c == LOWER_N ||
    c == LOWER_T
  }

  /** Reads up to `n` hexadecimal digits; stops early only at the end of the text. */
  function HexRun(js: Text, p: nat, n: nat): (r: Scan)
    requires p <= |js|
    ensures r.At? ==> p <= r.p <= |js|
    decreases n
  {
    if n == 0 || p >= |js| || js[p] == 0 then At(p)
    else if !IsHex(js[p]) then Bad(Inval)
    else HexRun(js, p + 1, n - 1)
  }

  /** The position of the quote that ends the string whose contents start at `p`. */
  function StringEnd(js: Text, p: nat): (r: Scan)
    ensures r.At? ==> p <= r.p < |js| && js[r.p] == QUOTE
    decreases |js| - p
  {
    if p >= |js| || js[p] == 0 then Bad(Part)
    else if js[p] == QUOTE then At(p)
    else if js[p] == BACKSLASH && p + 1 < |js| then
      if IsShortEscape(js[p + 1]) then StringEnd(js, p + 2)
      else if js[p + 1] == LOWER_U then
        match HexRun(js, p + 2, 4)
        case At(q) => StringEnd(js, q)
        case Bad(f) => Bad(f)
      else Bad(Inval)
    else StringEnd(js, p + 1)
  }

  /** The position of the delimiter that ends the primitive read so far up to `p`. */
  function PrimitiveEnd(js: Text, p: nat): (r: Scan)
    ensures r.At? ==> p <= r.p < |js| && IsDelimiter(js[r.p])
    decreases |js| - p
  {
    if p >= |js| || js[p] == 0 then Bad(Part)
    else if IsDelimiter(js[p]) then At(p)
    else if js[p] < 32 || js[p] >= 127 then Bad(Inval)
    else PrimitiveEnd(js, p + 1)
  }

  // ------------------------------------------------------------------ tokens

  /** Every parent link points to an earlier token, and `super` to an existing one. */
  predicate Linked(toks: seq<Token>) {
    forall i | 0 <= i < |toks| :: -1 <= toks[i].parent < i
  }

  predicate Shape(s: State) {
    Linked(s.toks) && -1 <= s.super < |s.toks|
  }

  predicate IsOpen(t: Token) {
    t.start != -1 && t.end == -1
  }

  predicate AnyOpen(toks: seq<Token>) {
    exists i | 0 <= i < |toks| :: IsOpen(toks[i])
  }

  /** One more child for token `i`; nothing to count at the top level. */
  function Bump(toks: seq<Token>, i: int): (r: seq<Token>)
    requires -1 <= i < |toks|
    ensures |r| == |toks|
  {
    if i == -1 then toks else toks[i := toks[i].(size := toks[i].size + 1)]
  }

  /** Takes the next token of the pool as a child of `super`. */
  function Add(s: State, cap: nat, kind: Kind, start: int, end: int, next: nat, super: int): Outcome
    requires Shape(s)
  {
    if |s.toks| >= cap then Failed(NoMem)
    else Done(State(next, Bump(s.toks, s.super) + [Token(kind, start, end, 0, s.super)], super))
  }

  datatype Closing = Close(i: nat) | Ignore | Reject

  /** Follows parent links from token `i` to the first open container. */
  function Walk(toks: seq<Token>, i: int, kind: Kind, super: int): (r: Closing)
    requires Linked(toks) && 0 <= i < |toks|
    ensures r.Close? ==> r.i <= i && IsOpen(toks[r.i]) && toks[r.i].kind == kind
    decreases i
  {
    var t := toks[i];
    if IsOpen(t) then
      if t.kind == kind then Close(i) else Reject
    else if t.parent == -1 then
      if t.kind != kind || super == -1 then Reject else Ignore
    else Walk(toks, t.parent, kind, super)
  }

  // ------------------------------------------------------------------ the parser

  function StepOpen(s: State, cap: nat, kind: Kind): Outcome
    requires Shape(s)
  {
    if |s.toks| >= cap then Failed(NoMem)
    else if s.super != -1 && s.toks[s.super].kind == Object then Failed(Inval)
    else Add(s, cap, kind, s.pos, -1, s.pos + 1, |s.toks|)
  }

  function StepClose(s: State, kind: Kind): Outcome
    requires Shape(s)
  {
    if |s.toks| < 1 then Failed(Inval)
    else match Walk(s.toks, |s.toks| - 1, kind, s.super)
         case Reject => Failed(Inval)
         case Ignore => Done(s.(pos := s.pos + 1))
         case Close(i) => Done(State(s.pos + 1, s.toks[i := s.toks[i].(end := s.pos + 1)], s.toks[i].parent))
  }

  function StepString(js: Text, s: State, cap: nat): Outcome
    requires Shape(s)
  {
    match StringEnd(js, s.pos + 1)
    case Bad(f) => Failed(f)
    case At(e) => Add(s, cap, Str, s.pos + 1, e, e + 1, s.super)
  }

  /** A primitive may be an array element, a top-level value or the first value of a key. */
  predicate TakesPrimitive(s: State)
    requires Shape(s)
  {
    s.super == -1 ||
    (s.toks[s.super].kind != Object && (s.toks[s.super].kind == Str ==> s.toks[s.super].size == 0))
  }

  function StepPrimitive(js: Text, s: State, cap: nat): Outcome
    requires Shape(s)
  {
    if !TakesPrimitive(s) then Failed(Inval)
    else match PrimitiveEnd(js, s.pos)
         case Bad(f) => Failed(f)
         case At(e) => Add(s, cap, Primitive, s.pos, e, e, s.super)
  }

  function StepComma(s: State): State
    requires Shape(s)
  {
    if s.super != -1 && s.toks[s.super].kind != Array && s.toks[s.super].kind != Object
    then State(s.pos + 1, s.toks, s.toks[s.super].parent)
    else s.(pos := s.pos + 1)
  }

  /** One turn of the main loop. */
  function Step(js: Text, s: State, cap: nat): (r: Outcome)
    requires Shape(s) && s.pos < |js| && js[s.pos] != 0
    ensures r.Done? ==> Shape(r.s) && s.pos < r.s.pos <= |js| && |s.toks| <= |r.s.toks|
  {
    var c := js[s.pos];
    if c == LBRACE then StepOpen(s, cap, Object)
    else if c == LBRACKET then StepOpen(s, cap, Array)
    else if c == RBRACE then StepClose(s, Object)
    else if c == RBRACKET then StepClose(s, Array)
    else if c == QUOTE then StepString(js, s, cap)
    else if IsSpace(c) then Done(s.(pos := s.pos + 1))
    else if c == COLON then Done(State(s.pos + 1, s.toks, |s.toks| - 1))
    else if c == COMMA then Done(StepComma(s))
    else if StartsPrimitive(c) then StepPrimitive(js, s, cap)
    else Failed(Inval)
  }

  /** The whole parse from state `s`; the cursor strictly advances on every turn. */
  function Run(js: Text, s: State, cap: nat): (r: Outcome)
    requires Shape(s)
    ensures r.Done? ==> Shape(r.s) && !AnyOpen(r.s.toks)
    decreases |js| - s.pos
  {
    if s.pos >= |js| || js[s.pos] == 0 then
      if AnyOpen(s.toks) then Failed(Part) else Done(s)
    else match Step(js, s, cap)
         case Failed(f) => Failed(f)
         case Done(s') => Run(js, s', cap)
  }
}
