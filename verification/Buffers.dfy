/**
 The output buffers the JSON writers fill: the growing `sb` of src/json.c and the fixed `app_buffer` of
 src/app/core.c, whose first overflow sticks.

 Both are arrays with a length, filled byte by byte in the source's loops. The growing buffer is proved to hold
 exactly what was put into it; the fixed one holds it or has failed, and it fails exactly when the text and its
 terminating zero do not fit.
 */
module Buffers {
  import opened Bytes
  import opened JsonStrings

  /** One byte more behind what was written after `head`. */
  lemma EscapeGrows(w: Writer, s: Text, i: nat, head: Text)
    requires i < |s|
    ensures head + Escape(w, s[..i]) + EscapeByte(w, s[i]) == head + Escape(w, s[..i + 1])
  {
    EscapeSnoc(w, s[..i], s[i]);
    assert s[..i + 1] == s[..i] + [s[i]];
  }

  lemma QuotedParts(w: Writer, s: Text, head: Text)
    ensures head + [QUOTE] + Escape(w, s) + [QUOTE] == head + Quoted(w, s)
    ensures |Quoted(w, s)| == |Escape(w, s)| + 2
  {
  }

  /** src/json.c:17-77. Memory is taken to be available: a refused realloc is not modelled. */
  class StringBuffer {
    var p: array<byte>
    var len: nat

    ghost predicate Valid()
      reads this, p
    {
      (p.Length == 0 && len == 0) || (len < p.Length && p[len] == 0)
    }

    function Contents(): Text
      requires len <= p.Length
      reads this, p
    {
      p[..len]
    }

    constructor ()
      ensures Valid() && len <= p.Length && Contents() == [] && fresh(p)
    {
      p := new byte[0];
      len := 0;
    }

    /** sb_put: appends, doubling the capacity until the text and its NUL fit. */
    method Put(s: Text)
      requires Valid()
      modifies this, p
      ensures Valid() && len <= p.Length && (p == old(p) || fresh(p))
      ensures Contents() == old(p[..len]) + s
      ensures p != old(p) ==> p.Length > old(p.Length)
    {
      var n := |s|;
      if len + n + 1 > p.Length {
        var cap := if p.Length != 0 then p.Length else 256;
        while cap < len + n + 1
          invariant cap >= p.Length && cap > 0
          decreases len + n + 1 - cap
        {
          cap := cap * 2;
        }
        var np := new byte[cap](_ => 0);
        forall i | 0 <= i < len {
          np[i] := p[i];
        }
        assert np[..len] == p[..len];
        p := np;
      }
      forall i | 0 <= i < n {
        p[len + i] := s[i];
      }
      assert p[..len + n] == old(p[..len]) + s;
      len := len + n;
      p[len] := 0;
    }

    /** The switch of sb_json_str. */
    method PutEscaped(c: byte)
      requires Valid()
      modifies this, p
      ensures Valid() && len <= p.Length && (p == old(p) || fresh(p))
      ensures Contents() == old(p[..len]) + EscapeByte(JsonWriter, c)
    {
      if c == QUOTE {
        Put([BACKSLASH, QUOTE]);
      } else if c == BACKSLASH {
        Put([BACKSLASH, BACKSLASH]);
      } else if c == LF {
        Put([BACKSLASH, LOWER_N]);
      } else if c == CR {
        Put([BACKSLASH, LOWER_R]);
      } else if c == TAB {
        Put([BACKSLASH, LOWER_T]);
      } else if c < 32 {
        Put(UnicodeEscape(c));
      } else {
        Put([c]);
      }
    }

    /** The loop of sb_json_str. */
    method PutContents(s: Text)
      requires Valid()
      modifies this, p
      ensures Valid() && len <= p.Length && (p == old(p) || fresh(p))
      ensures Contents() == old(p[..len]) + Escape(JsonWriter, s)
    {
      ghost var head := p[..len];
      var i := 0;
      while i < |s|
        invariant 0 <= i <= |s| && Valid() && len <= p.Length && (p == old(p) || fresh(p))
        invariant Contents() == head + Escape(JsonWriter, s[..i])
      {
        PutEscaped(s[i]);
        EscapeGrows(JsonWriter, s, i, head);
        i := i + 1;
      }
      assert s[..|s|] == s;
    }

    /** sb_json_str */
    method JsonStr(s: Text)
      requires Valid()
      modifies this, p
      ensures Valid() && len <= p.Length && (p == old(p) || fresh(p))
      ensures Contents() == old(p[..len]) + Quoted(JsonWriter, s)
    {
      QuotedParts(JsonWriter, s, p[..len]);
      Put([QUOTE]);
      PutContents(s);
      Put([QUOTE]);
    }
  }

  /** src/app/core.c:23-61. */
  class AppBuffer {
    const data: array<byte>
    var len: nat
    var failed: bool

    ghost predicate Valid()
      reads this, data
    {
      len <= data.Length
    }

    function Contents(): Text
      requires len <= data.Length
      reads this, data
    {
      data[..len]
    }

    constructor (data: array<byte>)
      ensures Valid() && this.data == data && len == 0 && !failed
    {
      this.data := data;
      len := 0;
      failed := false;
    }

    /** app_put, and app_printf once its text is formatted: all of it with its NUL, or failure for good. */
    method Put(s: Text)
      requires Valid()
      modifies this, data
      ensures Valid() && failed == (old(failed) || old(len) + |s| >= data.Length)
      ensures Contents() == if failed then old(data[..len]) else old(data[..len]) + s
    {
      if failed || len + |s| >= data.Length {
        failed := true;
        return;
      }
      forall i | 0 <= i < |s| {
        data[len + i] := s[i];
      }
      data[len + |s|] := 0;
      assert data[..len + |s|] == old(data[..len]) + s;
      len := len + |s|;
    }

    method PutEscaped(c: byte)
      requires Valid() && c != 0
      modifies this, data
      ensures Valid() && failed == (old(failed) || old(len) + |EscapeByte(AppWriter, c)| >= data.Length)
      ensures Contents() == if failed then old(data[..len]) else old(data[..len]) + EscapeByte(AppWriter, c)
    {
      if c == QUOTE || c == BACKSLASH {
        Put([BACKSLASH, c]);
      } else if c < 32 {
        Put(UnicodeEscape(c));
      } else {
        Put([c]);
      }
    }

    /** The loop of app_quote. */
    method PutContents(s: Text)
      requires Valid() && 0 !in s
      modifies this, data
      ensures Valid()
      ensures failed == (old(failed) || (s != [] && old(len) + |Escape(AppWriter, s)| >= data.Length))
      ensures !failed ==> Contents() == old(data[..len]) + Escape(AppWriter, s)
    {
      ghost var head := data[..len];
      var i := 0;
      while i < |s|
        invariant 0 <= i <= |s| && Valid()
        invariant !failed ==> Contents() == head + Escape(AppWriter, s[..i])
        invariant failed == (old(failed) || (i > 0 && |head| + |Escape(AppWriter, s[..i])| >= data.Length))
      {
        PutEscaped(s[i]);
        EscapeGrows(AppWriter, s, i, head);
        EscapeGrows(AppWriter, s, i, []);
        i := i + 1;
      }
      assert s[..|s|] == s;
    }

    /** app_quote: fails exactly when the whole literal does not fit, wherever that shows. */
    method Quote(s: Text)
      requires Valid() && 0 !in s
      modifies this, data
      ensures Valid()
      ensures failed == (old(failed) || old(len) + |Quoted(AppWriter, s)| >= data.Length)
      ensures !failed ==> Contents() == old(data[..len]) + Quoted(AppWriter, s)
    {
      QuotedParts(AppWriter, s, data[..len]);
      Put([QUOTE]);
      PutContents(s);
      Put([QUOTE]);
    }
  }
}
