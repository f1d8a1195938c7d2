/**
 The tokenizer as the program writes it (src/jsmn.h): a cursor, the next free token, the current parent, and a
 token array filled in place by nested loops.

 Every method is proved equal to its step of the specification in Tokenizer, with the error code and the cursor
 it leaves behind, and the parser as a whole to the specification on every input and every array length; what
 holds of the tokens is proved about the specification.
 */
module JsmnParser {
  import opened Bytes
  import opened Tokenizer

  class Parser {
    var pos: nat
    var toknext: nat
    var toksuper: int

    constructor ()
      ensures pos == 0 && toknext == 0 && toksuper == -1
    {
      pos, toknext, toksuper := 0, 0, -1;
    }

    /** The part of the parser and token array that means something. */
    function Abs(tokens: array<Token>): State
      requires toknext <= tokens.Length
      reads this, tokens
    {
      State(pos, tokens[..toknext], toksuper)
    }

    ghost predicate Valid(tokens: array<Token>)
      reads this, tokens
    {
      toknext <= tokens.Length && Shape(Abs(tokens))
    }

    /** State `s` with the cursor at `p` and one more token under `super`. */
    static function Filled(s: State, p: nat, kind: Kind, start: int, end: int): State {
      State(p, s.toks + [Token(kind, start, end, 0, s.super)], s.super)
    }

    /** The next token of the pool, or -1 when the pool is used up. */
    method AllocToken(tokens: array<Token>) returns (t: int)
      requires Valid(tokens)
      modifies this`toknext, tokens
      ensures toknext <= tokens.Length
      ensures t == if old(toknext) < tokens.Length then old(toknext) else -1
      ensures t == -1 ==> tokens[..] == old(tokens[..]) && toknext == old(toknext)
      ensures t != -1 ==> toknext == t + 1 && tokens[..t] == old(tokens[..t]) && tokens[t].start == tokens[t].end == -1
                          && tokens[t].size == 0 && tokens[t].parent == -1
    {
      if toknext >= tokens.Length {
        return -1;
      }
      t := toknext;
      toknext := toknext + 1;
      tokens[t] := tokens[t].(start := -1, end := -1, size := 0, parent := -1);
    }

    /** Allocates and fills the next token as a child of `toksuper`; false when the pool is used up. */
    method FillToken(tokens: array<Token>, kind: Kind, start: int, end: int) returns (ok: bool)
      requires Valid(tokens)
      modifies this`toknext, tokens
      ensures toknext <= tokens.Length
      ensures ok <==> old(toknext) < tokens.Length
      ensures Abs(tokens) == if ok then old(Abs(tokens)).(toks := old(Abs(tokens)).toks + [Token(kind, start, end, 0, toksuper)])
                             else old(Abs(tokens))
    {
      ghost var before := tokens[..toknext];
      var token := AllocToken(tokens);
      if token == -1 {
        return false;
      }
      tokens[token] := Token(kind, start, end, 0, toksuper);
      assert tokens[..toknext] == before + [tokens[token]];
      return true;
    }

    method ParsePrimitive(js: Text, tokens: array<Token>) returns (r: int)
      requires Valid(tokens) && pos < |js| && js[pos] != 0 && !IsDelimiter(js[pos])
      modifies this, tokens
      ensures toknext <= tokens.Length
      ensures r != 0 ==> Abs(tokens) == old(Abs(tokens))
      ensures match PrimitiveEnd(js, old(pos))
              case Bad(f) => r == f.Code()
              case At(e) => if old(toknext) >= tokens.Length then r == NoMem.Code() else
                r == 0 && e > 0 && Abs(tokens) == Filled(old(Abs(tokens)), e - 1, Primitive, old(pos), e)
    {
      var start := pos;
      while pos < |js| && js[pos] != 0 && !IsDelimiter(js[pos])
        invariant start <= pos <= |js|
        invariant pos == start ==> start < |js| && !IsDelimiter(js[start])
        invariant PrimitiveEnd(js, start) == PrimitiveEnd(js, pos)
        invariant tokens[..] == old(tokens[..]) && toknext == old(toknext) && toksuper == old(toksuper)
      {
        if js[pos] < 32 || js[pos] >= 127 {
          pos := start;
          return Inval.Code();
        }
        pos := pos + 1;
      }
      if pos >= |js| || js[pos] == 0 {
        pos := start;
        return Part.Code();
      }
      assert Abs(tokens).toks == old(Abs(tokens)).toks;
      var ok := FillToken(tokens, Primitive, start, pos);
      if !ok {
        pos := start;
        return NoMem.Code();
      }
      pos := pos - 1;
      return 0;
    }

    /** The escape that follows the backslash at `pos`: leaves the cursor on its last character. */
    method SkipEscape(js: Text) returns (ok: bool)
      requires pos + 1 < |js| && js[pos] == BACKSLASH
      modifies this`pos
      ensures ok ==> old(pos) < pos < |js| && StringEnd(js, old(pos)) == StringEnd(js, pos + 1)
      ensures !ok ==> StringEnd(js, old(pos)) == Bad(Inval)
    {
      ghost var slash := pos;
      pos := pos + 1;
      if js[pos] == LOWER_U {
        pos := pos + 1;
        var i := 0;
        while i < 4 && pos < |js| && js[pos] != 0
          invariant 0 <= i <= 4 && slash + 2 <= pos <= |js|
          invariant HexRun(js, slash + 2, 4) == HexRun(js, pos, 4 - i)
        {
          if !IsHex(js[pos]) {
            return false;
          }
          pos := pos + 1;
          i := i + 1;
        }
        pos := pos - 1;
      } else if !IsShortEscape(js[pos]) {
        return false;
      }
      return true;
    }

    method ParseString(js: Text, tokens: array<Token>) returns (r: int)
      requires Valid(tokens) && pos < |js| && js[pos] == QUOTE
      modifies this, tokens
      ensures toknext <= tokens.Length
      ensures r != 0 ==> Abs(tokens) == old(Abs(tokens))
      ensures match StringEnd(js, old(pos) + 1)
              case Bad(f) => r == f.Code()
              case At(e) => if old(toknext) >= tokens.Length then r == NoMem.Code() else
                r == 0 && Abs(tokens) == Filled(old(Abs(tokens)), e, Str, old(pos) + 1, e)
    {
      var start := pos;
      pos := pos + 1;
      while pos < |js| && js[pos] != 0
        invariant start < pos <= |js|
        invariant StringEnd(js, start + 1) == StringEnd(js, pos)
        invariant tokens[..] == old(tokens[..]) && toknext == old(toknext) && toksuper == old(toksuper)
        decreases |js| - pos
      {
        var c := js[pos];
        if c == QUOTE {
          assert Abs(tokens).toks == old(Abs(tokens)).toks;
          var ok := FillToken(tokens, Str, start + 1, pos);
          if !ok {
            pos := start;
            return NoMem.Code();
          }
          return 0;
        }
        if c == BACKSLASH && pos + 1 < |js| {
          var ok := SkipEscape(js);
          if !ok {
            pos := start;
            return Inval.Code();
          }
        }
        pos := pos + 1;
      }
      pos := start;
      return Part.Code();
    }

    /** One more child for the superior token, if there is one. */
    method CountChild(tokens: array<Token>)
      requires toknext <= tokens.Length && -1 <= toksuper < toknext
      modifies tokens
      ensures tokens[..toknext] == Bump(old(tokens[..toknext]), toksuper)
    {
      if toksuper != -1 {
        tokens[toksuper] := tokens[toksuper].(size := tokens[toksuper].size + 1);
      }
    }

    method OpenContainer(kind: Kind, tokens: array<Token>) returns (rc: int)
      requires Valid(tokens)
      modifies this, tokens
      ensures toknext <= tokens.Length
      ensures match StepOpen(old(Abs(tokens)), tokens.Length, kind)
              case Failed(f) => rc == f.Code()
              case Done(s) => rc == 0 && Abs(tokens) == s.(pos := old(pos)) && toknext == old(toknext) + 1
    {
      ghost var before := tokens[..toknext];
      var token := AllocToken(tokens);
      if token == -1 {
        return NoMem.Code();
      }
      if toksuper != -1 {
        if tokens[toksuper].kind == Object {
          return Inval.Code();
        }
        tokens[toksuper] := tokens[toksuper].(size := tokens[toksuper].size + 1);
        tokens[token] := tokens[token].(parent := toksuper);
      }
      tokens[token] := tokens[token].(kind := kind, start := pos);
      assert tokens[..toknext] == Bump(before, toksuper) + [tokens[token]];
      toksuper := toknext - 1;
      return 0;
    }

    method CloseContainer(kind: Kind, tokens: array<Token>) returns (rc: int)
      requires Valid(tokens)
      modifies this, tokens
      ensures toknext == old(toknext)
      ensures match StepClose(old(Abs(tokens)), kind)
              case Failed(f) => rc == f.Code()
              case Done(s) => rc == 0 && Abs(tokens) == s.(pos := old(pos))
    {
      if toknext < 1 {
        return Inval.Code();
      }
      ghost var toks := tokens[..toknext];
      var token := toknext - 1;
      while true
        invariant 0 <= token < toknext && toknext == old(toknext) && pos == old(pos) && toksuper == old(toksuper)
        invariant tokens[..toknext] == toks
        invariant Walk(toks, toknext - 1, kind, toksuper) == Walk(toks, token, kind, toksuper)
        decreases token
      {
        if tokens[token].start != -1 && tokens[token].end == -1 {
          if tokens[token].kind != kind {
            return Inval.Code();
          }
          tokens[token] := tokens[token].(end := pos + 1);
          assert tokens[..toknext] == toks[token := toks[token].(end := pos + 1)];
          toksuper := tokens[token].parent;
          return 0;
        }
        if tokens[token].parent == -1 {
          if tokens[token].kind != kind || toksuper == -1 {
            return Inval.Code();
          }
          return 0;
        }
        token := tokens[token].parent;
      }
    }

    method TakeString(js: Text, tokens: array<Token>) returns (rc: int)
      requires Valid(tokens) && pos < |js| && js[pos] == QUOTE
      modifies this, tokens
      ensures toknext <= tokens.Length
      ensures match StepString(js, old(Abs(tokens)), tokens.Length)
              case Failed(f) => rc == f.Code()
              case Done(s) => rc == 0 && s.pos > 0 && Abs(tokens) == s.(pos := s.pos - 1)
    {
      ghost var before := Abs(tokens);
      rc := ParseString(js, tokens);
      if rc == 0 {
        ghost var toks := tokens[..toknext];
        CountChild(tokens);
        assert Bump(toks, toksuper) == Bump(before.toks, toksuper) + [toks[|before.toks|]];
      }
    }

    method TakePrimitive(js: Text, tokens: array<Token>) returns (rc: int)
      requires Valid(tokens) && pos < |js| && js[pos] != 0 && StartsPrimitive(js[pos])
      modifies this, tokens
      ensures toknext <= tokens.Length
      ensures match StepPrimitive(js, old(Abs(tokens)), tokens.Length)
              case Failed(f) => rc == f.Code()
              case Done(s) => rc == 0 && s.pos > 0 && Abs(tokens) == s.(pos := s.pos - 1)
    {
      if toksuper != -1 &&
         (tokens[toksuper].kind == Object || (tokens[toksuper].kind == Str && tokens[toksuper].size != 0)) {
        return Inval.Code();
      }
      ghost var before := Abs(tokens);
      rc := ParsePrimitive(js, tokens);
      if rc == 0 {
        ghost var toks := tokens[..toknext];
        CountChild(tokens);
        assert Bump(toks, toksuper) == Bump(before.toks, toksuper) + [toks[|before.toks|]];
      }
    }

    /** One turn of the main loop, up to the cursor's final increment. */
    method Turn(js: Text, tokens: array<Token>) returns (rc: int)
      requires Valid(tokens) && pos < |js| && js[pos] != 0
      modifies this, tokens
      ensures toknext <= tokens.Length
      ensures match Step(js, old(Abs(tokens)), tokens.Length)
              case Failed(f) => rc == f.Code()
              case Done(s) => rc == 0 && s.pos > 0 && Abs(tokens) == s.(pos := s.pos - 1)
    {
      var c := js[pos];
      rc := 0;
      if c == LBRACE || c == LBRACKET {
        rc := OpenContainer(if c == LBRACE then Object else Array, tokens);
      } else if c == RBRACE || c == RBRACKET {
        rc := CloseContainer(if c == RBRACE then Object else Array, tokens);
      } else if c == QUOTE {
        rc := TakeString(js, tokens);
      } else if c == COLON {
        toksuper := toknext - 1;
      } else if c == COMMA {
        if toksuper != -1 && tokens[toksuper].kind != Array && tokens[toksuper].kind != Object {
          toksuper := tokens[toksuper].parent;
        }
      } else if StartsPrimitive(c) {
        rc := TakePrimitive(js, tokens);
      } else if !IsSpace(c) {
        rc := Inval.Code();
      }
    }

    /** The scan for an unmatched opening bracket at the end of the text. */
    method HasOpen(tokens: array<Token>) returns (found: bool)
      requires toknext <= tokens.Length
      ensures found == AnyOpen(tokens[..toknext])
    {
      var i := toknext - 1;
      while i >= 0
        invariant -1 <= i < toknext
        invariant forall k | i < k < toknext :: !IsOpen(tokens[k])
      {
        if tokens[i].start != -1 && tokens[i].end == -1 {
          assert IsOpen(tokens[..toknext][i]);
          return true;
        }
        i := i - 1;
      }
      return false;
    }

    /** Whether the character `c` starts a token. */
    static predicate StartsToken(c: byte) {
      c == LBRACE || c == LBRACKET || c == QUOTE || StartsPrimitive(c)
    }

    /** What one turn adds to the token count. */
    static lemma StepCounts(js: Text, s: State, cap: nat)
      requires Shape(s) && s.pos < |js| && js[s.pos] != 0 && Step(js, s, cap).Done?
      ensures |Step(js, s, cap).s.toks| == |s.toks| + if StartsToken(js[s.pos]) then 1 else 0
    {
    }

    /** The number of tokens, or the negative error code; always what `Run` says. */
    method Parse(js: Text, tokens: array<Token>) returns (rc: int)
      requires Valid(tokens)
      modifies this, tokens
      ensures match Run(js, old(Abs(tokens)), tokens.Length)
              case Failed(f) => rc == f.Code()
              case Done(s) => rc == toknext <= tokens.Length && Abs(tokens) == s
    {
      var count := toknext;
      ghost var goal := Run(js, Abs(tokens), tokens.Length);
      while pos < |js| && js[pos] != 0
        invariant Valid(tokens) && count == toknext
        invariant Run(js, Abs(tokens), tokens.Length) == goal
        decreases |js| - pos
      {
        ghost var s := Abs(tokens);
        var c := js[pos];
        var r := Turn(js, tokens);
        if r < 0 {
          return r;
        }
        StepCounts(js, s, tokens.Length);
        if StartsToken(c) {
          count := count + 1;
        }
        pos := pos + 1;
      }
      var unmatched := HasOpen(tokens);
      return if unmatched then Part.Code() else count;
    }
  }
}
