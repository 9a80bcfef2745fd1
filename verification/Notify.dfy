/** The AppleScript text that shows a notification. A string is the sequence of its runes. */
module Notify {
  import opened Options

  // ----- escaping --------------------------------------------------------------------------

  /** The runes escape drops: control characters other than newline, return and tab. */
  predicate Dropped(c: char) { c < ' ' && c != '\n' && c != '\r' && c != '\t' }

  function EscapeRune(c: char): string {
    if c == '"' || c == '\\' then ['\\', c]
    else if c == '\n' then "\\n"
    else if c == '\r' then "\\r"
    else if c == '\t' then "\\t"
    else if c < ' ' then ""
    else [c]
  }

  function Escaped(s: string): string {
    if s == [] then [] else Escaped(s[..|s| - 1]) + EscapeRune(s[|s| - 1])
  }

  function Stripped(s: string): string {
    if s == [] then [] else if Dropped(s[0]) then Stripped(s[1..]) else [s[0]] + Stripped(s[1..])
  }

  method Escape(s: string) returns (out: string)
    ensures out == Escaped(s)
  {
    out := [];
    for i := 0 to |s|
      invariant out == Escaped(s[..i])
    {
      assert s[..i + 1][..i] == s[..i];
      var r := s[i];
      if r == '"' || r == '\\' {
        out := out + ['\\', r];
      } else if r == '\n' {
        out := out + ['\\', 'n'];
      } else if r == '\r' {
        out := out + ['\\', 'r'];
      } else if r == '\t' {
        out := out + ['\\', 't'];
      } else {
        if r < ' ' { continue; }
        out := out + [r];
      }
    }
    assert s[..|s|] == s;
  }

  // ----- reading a string literal ----------------------------------------------------------

  /** The text of a literal and what follows its closing quote. */
  datatype Read = Read(text: string, rest: string)

  /** The rune an escape sequence stands for. */
  function Unescape(c: char): Option<char> {
    if c == '"' || c == '\\' then Some(c)
    else if c == 'n' then Some('\n')
    else if c == 'r' then Some('\r')
    else if c == 't' then Some('\t')
    else None
  }

  /** Reads a literal whose opening quote has been read: up to the first quote that is not
      escaped. None for a literal that does not end or has an unknown escape. */
  function ReadLiteral(s: string): Option<Read>
    decreases |s|
  {
    if s == [] then None
    else if s[0] == '"' then Some(Read([], s[1..]))
    else if s[0] == '\\' then
      if |s| == 1 || Unescape(s[1]).None? then None
      else
        var more := ReadLiteral(s[2..]);
        if more.None? then None else Some(Read([Unescape(s[1]).value] + more.value.text, more.value.rest))
    else
      var more := ReadLiteral(s[1..]);
      if more.None? then None else Some(Read([s[0]] + more.value.text, more.value.rest))
  }

  lemma {:induction false} EscapedConcat(a: string, b: string)
    ensures Escaped(a + b) == Escaped(a) + Escaped(b)
  {
    hide EscapeRune;
    if b == [] {
      assert a + b == a;
    } else {
      var front := b[..|b| - 1];
      assert (a + b)[..|a + b| - 1] == a + front;
      EscapedConcat(a, front);
      assert Escaped(a + b) == Escaped(a) + Escaped(front) + EscapeRune(b[|b| - 1]);
    }
  }

  lemma EscapedFirst(s: string)
    requires s != []
    ensures Escaped(s) == EscapeRune(s[0]) + Escaped(s[1..])
  {
    assert s == [s[0]] + s[1..];
    EscapedConcat([s[0]], s[1..]);
    assert [s[0]][..0] == [];
    assert Escaped([s[0]]) == EscapeRune(s[0]);
  }

  lemma ReadRune(c: char, tail: string)
    ensures var more := ReadLiteral(tail);
            ReadLiteral(EscapeRune(c) + tail)
            == if Dropped(c) then more
               else if more.None? then None else Some(Read([c] + more.value.text, more.value.rest))
  {
    var t := EscapeRune(c) + tail;
    if Dropped(c) {
      assert t == tail;
    } else if |EscapeRune(c)| == 2 {
      assert t[0] == '\\' && t[1] == EscapeRune(c)[1] && t[2..] == tail;
    } else {
      assert t[0] == c && t[1..] == tail;
    }
  }

  /** A reader that starts behind an opening quote stops exactly at the quote written after the
      escaped text, and has read the text without its dropped control characters. */
  lemma {:induction false} EscapeRoundTrip(s: string, rest: string)
    ensures ReadLiteral(Escaped(s) + "\"" + rest) == Some(Read(Stripped(s), rest))
  {
    if s == [] {
      assert Escaped(s) + "\"" + rest == "\"" + rest;
      assert ("\"" + rest)[1..] == rest;
    } else {
      var tail := Escaped(s[1..]) + "\"" + rest;
      EscapedFirst(s);
      assert Escaped(s) + "\"" + rest == EscapeRune(s[0]) + tail;
      ReadRune(s[0], tail);
      EscapeRoundTrip(s[1..], rest);
    }
  }

  /** Two texts are escaped alike exactly when they differ in dropped characters only. */
  lemma EscapeInjective(a: string, b: string)
    ensures Escaped(a) == Escaped(b) <==> Stripped(a) == Stripped(b)
  {
    EscapeRoundTrip(a, []);
    EscapeRoundTrip(b, []);
    EscapedStripped(a);
    EscapedStripped(b);
  }

  lemma {:induction false} EscapedStripped(s: string)
    ensures Escaped(s) == Escaped(Stripped(s))
  {
    if s != [] {
      EscapedStripped(s[1..]);
      EscapedFirst(s);
      if !Dropped(s[0]) {
        EscapedFirst(Stripped(s));
        assert Stripped(s)[1..] == Stripped(s[1..]);
      }
    }
  }

  // ----- the script ------------------------------------------------------------------------

  const HEAD := "display notification \""
  const MIDDLE := " with title \""

  function Script(title: string, message: string): string {
    HEAD + Escaped(message) + "\"" + MIDDLE + Escaped(title) + "\""
  }

  datatype Notification = Notification(title: string, message: string)

  /** Reads a script back: the fixed words and the two literals, and nothing after them. */
  function ReadScript(s: string): Option<Notification> {
    if !("display notification \"" <= s) then None
    else
      var m := ReadLiteral(s[|"display notification \""|..]);
      if m.None? || !(" with title \"" <= m.value.rest) then None
      else
        var t := ReadLiteral(m.value.rest[|" with title \""|..]);
        if t.None? || t.value.rest != [] then None else Some(Notification(t.value.text, m.value.text))
  }

  /** Whatever the title and message contain, the script is one notification command that shows
      them: no text can end its literal early. */
  lemma ScriptRoundTrip(title: string, message: string)
    ensures ReadScript(Script(title, message)) == Some(Notification(Stripped(title), Stripped(message)))
  {
    hide ReadLiteral, Escaped, Stripped;
    var s := Script(title, message);
    var second := MIDDLE + Escaped(title) + "\"";
    assert s == HEAD + (Escaped(message) + "\"" + second);
    assert s[..|HEAD|] == HEAD && s[|HEAD|..] == Escaped(message) + "\"" + second;
    EscapeRoundTrip(message, second);
    assert second[..|MIDDLE|] == MIDDLE && second[|MIDDLE|..] == Escaped(title) + "\"" + [];
    EscapeRoundTrip(title, []);
  }
}
