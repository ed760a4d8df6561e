// String output ports, and the printer's loops over them.
module Ports {
  import opened Values
  import opened Printer

  // StringOutputPort: a buffer that grows in steps of 128 characters.
  class StringPort {
    var buffer: array<char>
    var pos: nat

    ghost predicate Valid()
      reads this
    {
      pos <= buffer.Length
    }

    ghost function Contents(): string
      reads this, buffer
      requires Valid()
    {
      buffer[..pos]
    }

    constructor ()
      ensures Valid() && fresh(buffer) && Contents() == ""
    {
      buffer := new char[16](_ => ' ');
      pos := 0;
    }

    // (:length! buffer n)
    method Grow(n: nat)
      requires Valid() && n >= buffer.Length
      modifies this`buffer
      ensures Valid() && fresh(buffer) && buffer.Length == n && Contents() == old(Contents())
    {
      var bigger := new char[n](_ => ' ');
      var i := 0;
      while i < buffer.Length
        invariant 0 <= i <= buffer.Length && buffer == old(buffer)
        invariant bigger[..i] == buffer[..i]
      {
        bigger[i] := buffer[i];
        i := i + 1;
      }
      assert bigger[..pos] == bigger[..i][..pos] == buffer[..i][..pos];
      buffer := bigger;
    }

    method BlockWrite(s: string)
      requires Valid()
      modifies this, buffer
      ensures Valid() && (buffer == old(buffer) || fresh(buffer)) && Contents() == old(Contents()) + s
    {
      if |s| > buffer.Length - pos {
        Grow(0x80 + (buffer.Length + |s|) / 0x80 * 0x80);
      }
      ghost var was := Contents();
      var i := 0;
      while i < |s|
        invariant 0 <= i <= |s| && pos + |s| <= buffer.Length && pos == old(pos)
        invariant buffer == old(buffer) || fresh(buffer)
        invariant buffer[..pos + i] == was + s[..i]
      {
        buffer[pos + i] := s[i];
        i := i + 1;
      }
      pos := pos + |s|;
    }

    method CharWrite(c: char)
      requires Valid()
      modifies this, buffer
      ensures Valid() && (buffer == old(buffer) || fresh(buffer)) && Contents() == old(Contents()) + [c]
    {
      if buffer.Length - pos < 1 {
        Grow(0x80 + buffer.Length);
      }
      buffer[pos] := c;
      pos := pos + 1;
    }
  }

  // write/raw/string
  method WriteString(s: string, port: StringPort)
    requires port.Valid()
    modifies port, port.buffer
    ensures port.Valid() && (port.buffer == old(port.buffer) || fresh(port.buffer))
    ensures port.Contents() == old(port.Contents()) + ("\"" + Quoted(s))
  {
    hide StringPort.Contents, Quoted, Escaped;
    port.BlockWrite("\"");
    var i := 0;
    assert s[0..] == s;
    while i < |s|
      invariant 0 <= i <= |s|
      invariant port.Valid() && (port.buffer == old(port.buffer) || fresh(port.buffer))
      invariant port.Contents() + Quoted(s[i..]) == old(port.Contents()) + ("\"" + Quoted(s))
    {
      var c := s[i];
      if c == '\0' {
        QuotedEnds(s[i..]);
        port.BlockWrite("\"");
        return;
      }
      QuotedStep(s, i);
      WriteChar(c, port);
      i := i + 1;
    }
    QuotedEnds(s[i..]);
    port.BlockWrite("\"");
  }

  lemma QuotedStep(s: string, i: nat)
    requires i < |s| && s[i] != '\0'
    ensures Quoted(s[i..]) == Escaped(s[i]) + Quoted(s[i + 1..])
  {
    assert s[i..][1..] == s[i + 1..];
  }

  lemma QuotedEnds(s: string)
    requires s == [] || s[0] == '\0'
    ensures Quoted(s) == "\""
  {
  }

  method WriteChar(c: char, port: StringPort)
    requires port.Valid()
    modifies port, port.buffer
    ensures port.Valid() && (port.buffer == old(port.buffer) || fresh(port.buffer))
    ensures port.Contents() == old(port.Contents()) + Escaped(c)
  {
    if c == '\U{07}' { port.BlockWrite("\\a"); }
    else if c == '\U{08}' { port.BlockWrite("\\b"); }
    else if c == '\t' { port.BlockWrite("\\t"); }
    else if c == '\n' { port.BlockWrite("\\n"); }
    else if c == '\U{0B}' { port.BlockWrite("\\v"); }
    else if c == '\U{0C}' { port.BlockWrite("\\f"); }
    else if c == '\r' { port.BlockWrite("\\r"); }
    else if c == '\U{1B}' { port.BlockWrite("\\e"); }
    else if c == '\"' { port.BlockWrite("\\\""); }
    else if c == '\\' { port.BlockWrite("\\\\"); }
    else { port.CharWrite(c); }
  }

  // How often the loop over a list turns.
  function Turns(v: Value): nat {
    if !Truthy(v) then 0 else if v.Pair? then 1 + Turns(v.cdr) else 1
  }

  lemma PartsShown(v: Value)
    requires Shown(v)
    ensures v.Pair? ==> Shown(v.car) && Shown(v.cdr)
  {
  }

  // What one turn writes.
  function TurnText(w: Value, first: bool): string
    requires Shown(w) && Truthy(w)
  {
    (if first then "" else " ") + if w.Pair? then Printed(w.car) else ". " + PrintedAtom(w)
  }

  lemma TailTurns(w: Value, first: bool)
    requires Shown(w) && Truthy(w)
    ensures Shown(Cdr(w)) && Tail(w, first) == TurnText(w, first) + Tail(Cdr(w), false)
    ensures Turns(Cdr(w)) < Turns(w)
  {
    hide PrintedAtom, Printed;
    PartsShown(w);
  }

  lemma EndShown(w: Value)
    requires Shown(w) && !Truthy(w)
    ensures Tail(w, true) == Tail(w, false) == ""
  {
  }

  lemma PairText(v: Value)
    requires Shown(v) && v.Pair?
    ensures IsQuote(v) ==> Shown(v.cdr.car) && Printed(v) == "'" + Printed(v.cdr.car) && v.cdr.car < v
    ensures !IsQuote(v) ==> Printed(v) == ("(" + Tail(v, true)) + ")"
  {
    hide PrintedAtom;
    PartsShown(v);
    PartsShown(v.cdr);
  }

  // write/raw/pair
  method WritePair(v: Value, port: StringPort)
    requires Shown(v) && v.Pair? && port.Valid()
    modifies port, port.buffer
    ensures port.Valid() && (port.buffer == old(port.buffer) || fresh(port.buffer))
    ensures port.Contents() == old(port.Contents()) + Printed(v)
    decreases v, 2
  {
    hide Shown, Tail, Printed, PrintedAtom, StringPort.Contents;
    PairText(v);
    if IsQuote(v) {
      port.BlockWrite("'");
      WriteRaw(v.cdr.car, port);
    } else {
      port.BlockWrite("(");
      WriteTail(v, port);
      port.BlockWrite(")");
    }
  }

  method WriteTail(v: Value, port: StringPort)
    requires Shown(v) && v.Pair? && port.Valid()
    modifies port, port.buffer
    ensures port.Valid() && (port.buffer == old(port.buffer) || fresh(port.buffer))
    ensures port.Contents() == old(port.Contents()) + Tail(v, true)
    decreases v, 1
  {
    hide Shown, Tail, Printed, PrintedAtom, Truthy, StringPort.Contents;
    var started := false;
    var w := v;
    while Truthy(w)
      invariant Shown(w) && (!Truthy(w) || w == v || w < v)
      invariant port.Valid() && (port.buffer == old(port.buffer) || fresh(port.buffer))
      invariant port.Contents() + Tail(w, !started) == old(port.Contents()) + Tail(v, true)
      decreases Turns(w)
    {
      PartsShown(w);
      TailTurns(w, !started);
      WriteTurn(w, started, port);
      started := true;
      w := Cdr(w);
    }
    EndShown(w);
  }

  method WriteTurn(w: Value, started: bool, port: StringPort)
    requires Shown(w) && Truthy(w) && port.Valid()
    modifies port, port.buffer
    ensures port.Valid() && (port.buffer == old(port.buffer) || fresh(port.buffer))
    ensures port.Contents() == old(port.Contents()) + TurnText(w, !started)
    decreases w, 0
  {
    hide Tail, Printed, PrintedAtom, Truthy, StringPort.Contents;
    PartsShown(w);
    if started {
      port.BlockWrite(" ");
    }
    if w.Pair? {
      WriteRaw(w.car, port);
    } else {
      port.BlockWrite(". ");
      WriteAtom(w, port);
    }
  }

  method WriteAtom(v: Value, port: StringPort)
    requires Shown(v) && !v.Pair? && port.Valid()
    modifies port, port.buffer
    ensures port.Valid() && (port.buffer == old(port.buffer) || fresh(port.buffer))
    ensures port.Contents() == old(port.Contents()) + PrintedAtom(v)
  {
    match v
    case Nil => port.BlockWrite("#nil");
    case Bool(b) => port.BlockWrite(if b then "#t" else "#f");
    case Int(i) => port.BlockWrite(Decimal(i));
    case Sym(s) => port.BlockWrite(Clip(s));
    case Kw(k) =>
      port.BlockWrite(":");
      port.BlockWrite(Clip(k));
    case Str(s) => WriteString(s, port);
  }

  // write/raw, with hr? off
  method WriteRaw(v: Value, port: StringPort)
    requires Shown(v) && port.Valid()
    modifies port, port.buffer
    ensures port.Valid() && (port.buffer == old(port.buffer) || fresh(port.buffer))
    ensures port.Contents() == old(port.Contents()) + Printed(v)
    decreases v, 3
  {
    if v.Pair? {
      WritePair(v, port);
    } else {
      WriteAtom(v, port);
    }
  }

  // string/write
  method StringWrite(v: Value) returns (s: string)
    requires Shown(v)
    ensures s == Printed(v)
  {
    var port := new StringPort();
    WriteRaw(v, port);
    s := port.buffer[..port.pos];
  }
}
