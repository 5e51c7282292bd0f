// One line of a tab-separated file: escape, join, split, unescape
// (`_escape_tsv`, `_unescape_tsv`, `_split_tsv_line` and the writer loop in python/icefalldb/adapter.py).
module Tsv {
  import opened Collections

  const TAB: string := ['\t']

  // ---- escaping: four global replacements, one after the other ----

  /** `str.replace` of one character. */
  function Replace(s: string, c: char, repl: string): string {
    if s == [] then []
    else if s[0] == c then repl + Replace(s[1..], c, repl)
    else [s[0]] + Replace(s[1..], c, repl)
  }

  function Escape(value: string): string {
    var tabs := Replace(Replace(value, '\\', ['\\', '\\']), '\t', ['\\', 't']);
    Replace(Replace(tabs, '\n', ['\\', 'n']), '\r', ['\\', 'r'])
  }

  /** What the replacements amount to for one character. */
  function EscapeChar(c: char): string {
    if c == '\\' then ['\\', '\\']
    else if c == '\t' then ['\\', 't']
    else if c == '\n' then ['\\', 'n']
    else if c == '\r' then ['\\', 'r']
    else [c]
  }

  lemma {:induction false} ReplaceConcat(a: string, b: string, c: char, repl: string)
    ensures Replace(a + b, c, repl) == Replace(a, c, repl) + Replace(b, c, repl)
  {
    if a == [] {
      assert a + b == b;
    } else {
      assert (a + b)[1..] == a[1..] + b;
      ReplaceConcat(a[1..], b, c, repl);
      Assoc(if a[0] == c then repl else [a[0]], Replace(a[1..], c, repl), Replace(b, c, repl));
    }
  }

  lemma {:induction false} ReplaceOne(x: char, c: char, repl: string)
    ensures Replace([x], c, repl) == if x == c then repl else [x]
  {
    assert [x][1..] == [];
  }

  lemma {:induction false} ReplaceTwo(x: char, y: char, c: char, repl: string)
    requires x != c && y != c
    ensures Replace([x, y], c, repl) == [x, y]
  {
    assert [x, y] == [x] + [y];
    ReplaceConcat([x], [y], c, repl);
    ReplaceOne(x, c, repl);
    ReplaceOne(y, c, repl);
  }

  lemma {:induction false} EscapeOne(c: char)
    ensures Escape([c]) == EscapeChar(c)
  {
    var e := EscapeChar(c);
    ReplaceOne(c, '\\', ['\\', '\\']);
    if c == '\\' {
      ReplaceTwo('\\', '\\', '\t', ['\\', 't']);
      ReplaceTwo('\\', '\\', '\n', ['\\', 'n']);
      ReplaceTwo('\\', '\\', '\r', ['\\', 'r']);
    } else {
      ReplaceOne(c, '\t', ['\\', 't']);
      ReplaceTwo('\\', 't', '\n', ['\\', 'n']);
      ReplaceTwo('\\', 't', '\r', ['\\', 'r']);
      ReplaceOne(c, '\n', ['\\', 'n']);
      ReplaceTwo('\\', 'n', '\r', ['\\', 'r']);
      ReplaceOne(c, '\r', ['\\', 'r']);
    }
  }

  /** The codes of the four escaped characters. */
  lemma {:induction false} EscapeCodes(c: char)
    ensures Escape(['\t']) == ['\\', 't'] && Unescape(['\\', 't']) == Some(['\t'])
    ensures Escape(['\n']) == ['\\', 'n'] && Unescape(['\\', 'n']) == Some(['\n'])
    ensures Escape(['\r']) == ['\\', 'r'] && Unescape(['\\', 'r']) == Some(['\r'])
    ensures Escape(['\\']) == ['\\', '\\'] && Unescape(['\\', '\\']) == Some(['\\'])
    ensures c != '\t' && c != '\n' && c != '\r' && c != '\\' ==>
              Escape([c]) == [c] && Unescape([c]) == Some([c]) && Unescape(['\\', c]) ==
              if c == 't' then Some(['\t'])
              else if c == 'n' then Some(['\n'])
              else if c == 'r' then Some(['\r'])
              else None
    ensures Unescape(['\\']) == Some(['\\'])
  {
    EscapeOne('\t');
    EscapeOne('\n');
    EscapeOne('\r');
    EscapeOne('\\');
    EscapeOne(c);
    UnescapePair('t');
    UnescapePair('n');
    UnescapePair('r');
    UnescapePair('\\');
    UnescapePair(c);
    UnescapeOne(c);
    UnescapeOne('\\');
  }

  lemma {:induction false} UnescapePair(c: char)
    ensures Unescape(['\\', c]) == if Decoded(c).None? then None else Some([Decoded(c).value])
  {
    assert ['\\', c][2..] == [] && Unescape([]) == Some([]);
    if Decoded(c).Some? { assert [Decoded(c).value] + [] == [Decoded(c).value]; }
  }

  lemma {:induction false} UnescapeOne(c: char)
    ensures Unescape([c]) == Some([c])
  {
    assert [c][1..] == [] && Unescape([]) == Some([]);
    assert [c] + [] == [c];
  }

  lemma {:induction false} EscapeConcat(a: string, b: string)
    ensures Escape(a + b) == Escape(a) + Escape(b)
  {
    ReplaceConcat(a, b, '\\', ['\\', '\\']);
    var a1, b1 := Replace(a, '\\', ['\\', '\\']), Replace(b, '\\', ['\\', '\\']);
    ReplaceConcat(a1, b1, '\t', ['\\', 't']);
    var a2, b2 := Replace(a1, '\t', ['\\', 't']), Replace(b1, '\t', ['\\', 't']);
    ReplaceConcat(a2, b2, '\n', ['\\', 'n']);
    ReplaceConcat(Replace(a2, '\n', ['\\', 'n']), Replace(b2, '\n', ['\\', 'n']), '\r', ['\\', 'r']);
  }

  /** The four passes do not disturb each other: they escape character by character. */
  lemma {:induction false} EscapeCons(value: string)
    requires value != []
    ensures Escape(value) == EscapeChar(value[0]) + Escape(value[1..])
  {
    assert value == [value[0]] + value[1..];
    EscapeConcat([value[0]], value[1..]);
    EscapeOne(value[0]);
  }

  /** Escaped text holds no separator. */
  lemma {:induction false} EscapedIsPlain(value: string)
    ensures '\t' !in Escape(value) && '\n' !in Escape(value) && '\r' !in Escape(value)
  {
    if value != [] {
      EscapeCons(value);
      EscapedIsPlain(value[1..]);
    }
  }

  // ---- unescaping ----

  function Decoded(code: char): Option<char> {
    if code == 't' then Some('\t')
    else if code == 'n' then Some('\n')
    else if code == 'r' then Some('\r')
    else if code == '\\' then Some('\\')
    else None
  }

  function Prepend(a: string, b: Option<string>): Option<string> {
    if b.None? then None else Some(a + b.value)
  }

  /** None for an unknown escape sequence; a backslash at the very end stands for itself. */
  function Unescape(s: string): Option<string> {
    if s == [] then Some([])
    else if s[0] == '\\' && |s| > 1 then
      var c := Decoded(s[1]);
      if c.None? then None else Prepend([c.value], Unescape(s[2..]))
    else Prepend([s[0]], Unescape(s[1..]))
  }

  lemma {:induction false} PrependTwice(a: string, b: string, c: Option<string>)
    ensures Prepend(a, Prepend(b, c)) == Prepend(a + b, c)
  {
    if c.Some? { assert a + (b + c.value) == a + b + c.value; }
  }

  lemma {:induction false} PrependNothing(b: Option<string>)
    ensures Prepend([], b) == b
  {
    if b.Some? { assert [] + b.value == b.value; }
  }

  method UnescapeTsv(value: string) returns (r: Option<string>)
    ensures r == Unescape(value)
  {
    var out: string := [];
    var i := 0;
    PrependNothing(Unescape(value));
    assert value[0..] == value;
    while i < |value|
      invariant 0 <= i <= |value|
      invariant Unescape(value) == Prepend(out, Unescape(value[i..]))
    {
      var rest := value[i..];
      if value[i] == '\\' && i + 1 < |value| {
        var c := Decoded(value[i + 1]);
        assert rest[1] == value[i + 1] && rest[2..] == value[i + 2..];
        if c.None? {
          return None;
        }
        PrependTwice(out, [c.value], Unescape(value[i + 2..]));
        out := out + [c.value];
        i := i + 2;
      } else {
        assert rest[1..] == value[i + 1..];
        PrependTwice(out, [value[i]], Unescape(value[i + 1..]));
        out := out + [value[i]];
        i := i + 1;
      }
    }
    assert value[i..] == [] && out + [] == out;
    return Some(out);
  }

  // ---- splitting ----

  /** Put `a` in front of the first cell. */
  function Attach(a: string, cells: seq<string>): (r: seq<string>)
    requires cells != []
    ensures |r| == |cells|
  {
    [a + cells[0]] + cells[1..]
  }

  function Split(line: string): (cells: seq<string>)
    ensures cells != []
  {
    if line == [] then [[]]
    else if line[0] == '\\' && |line| > 1 then Attach(line[..2], Split(line[2..]))
    else if line[0] == '\t' then [[]] + Split(line[1..])
    else Attach(line[..1], Split(line[1..]))
  }

  lemma {:induction false} AttachTwice(a: string, b: string, cells: seq<string>)
    requires cells != []
    ensures Attach(a, Attach(b, cells)) == Attach(a + b, cells)
  {
    assert a + (b + cells[0]) == a + b + cells[0];
  }

  lemma {:induction false} AttachNothing(cells: seq<string>)
    requires cells != []
    ensures Attach([], cells) == cells
  {
    assert [] + cells[0] == cells[0];
  }

  method SplitTsvLine(line: string) returns (cells: seq<string>)
    ensures cells == Split(line)
  {
    cells := [];
    var current: string := [];
    var i := 0;
    AttachNothing(Split(line));
    assert line[0..] == line;
    while i < |line|
      invariant 0 <= i <= |line|
      invariant Split(line) == cells + Attach(current, Split(line[i..]))
    {
      if line[i] == '\\' && i + 1 < |line| {
        NextPair(line, i, current);
        current := current + [line[i], line[i + 1]];
        i := i + 2;
      } else if line[i] == '\t' {
        assert line[i..][1..] == line[i + 1..];
        NextCell(cells, current, Split(line[i + 1..]));
        cells := cells + [current];
        current := [];
        i := i + 1;
      } else {
        NextChar(line, i, current);
        current := current + [line[i]];
        i := i + 1;
      }
    }
    assert line[i..] == [];
    LastCell(current);
    cells := cells + [current];
  }

  lemma {:induction false} NextPair(line: string, i: nat, current: string)
    requires i + 1 < |line| && line[i] == '\\'
    ensures Attach(current, Split(line[i..])) == Attach(current + [line[i], line[i + 1]], Split(line[i + 2..]))
  {
    var rest := line[i..];
    assert rest[..2] == [line[i], line[i + 1]] && rest[2..] == line[i + 2..];
    AttachTwice(current, rest[..2], Split(line[i + 2..]));
  }

  lemma {:induction false} NextChar(line: string, i: nat, current: string)
    requires i < |line| && line[i] != '\t' && (line[i] == '\\' ==> i + 1 == |line|)
    ensures Attach(current, Split(line[i..])) == Attach(current + [line[i]], Split(line[i + 1..]))
  {
    var rest := line[i..];
    assert rest[..1] == [line[i]] && rest[1..] == line[i + 1..];
    AttachTwice(current, rest[..1], Split(line[i + 1..]));
  }

  lemma {:induction false} LastCell(current: string)
    ensures Attach(current, Split([])) == [current]
  {
    assert current + [] == current;
  }

  lemma {:induction false} NextCell(cells: seq<string>, current: string, rest: seq<string>)
    requires rest != []
    ensures cells + Attach(current, [[]] + rest) == (cells + [current]) + Attach([], rest)
  {
    AttachNothing(rest);
    assert current + [] == current;
    assert ([[]] + rest)[1..] == rest;
  }

  // ---- writing and reading a line ----

  function EscapeAll(cells: seq<string>): (r: seq<string>)
    ensures |r| == |cells| && forall i :: 0 <= i < |r| ==> r[i] == Escape(cells[i])
  {
    seq(|cells|, i requires 0 <= i < |cells| => Escape(cells[i]))
  }

  /** `"\t".join`. */
  function Join(cells: seq<string>): string {
    if cells == [] then []
    else if |cells| == 1 then cells[0]
    else cells[0] + TAB + Join(cells[1..])
  }

  function WriteLine(cells: seq<string>): string { Join(EscapeAll(cells)) }

  function UnescapeAll(cells: seq<string>): Option<seq<string>> {
    if cells == [] then Some([])
    else
      var head, tail := Unescape(cells[0]), UnescapeAll(cells[1..]);
      if head.None? || tail.None? then None else Some([head.value] + tail.value)
  }

  function ReadLine(line: string): Option<seq<string>> { UnescapeAll(Split(line)) }

  // ---- round trips ----

  lemma {:induction false} UnescapeEscape(value: string)
    ensures Unescape(Escape(value)) == Some(value)
  {
    if value != [] {
      EscapeCons(value);
      UnescapeEscape(value[1..]);
      var e, rest := EscapeChar(value[0]), Escape(value[1..]);
      assert (e + rest)[|e|..] == rest;
      assert value == [value[0]] + value[1..];
    }
  }

  lemma {:induction false} SplitOne(c: char, rest: string)
    ensures Split(EscapeChar(c) + rest) == Attach(EscapeChar(c), Split(rest))
  {
    var e := EscapeChar(c);
    var line := e + rest;
    assert line[..|e|] == e && line[|e|..] == rest;
  }

  /** The scanner walks over escaped text without seeing a separator in it. */
  lemma {:induction false} SplitEscaped(value: string, rest: string)
    ensures Split(Escape(value) + rest) == Attach(Escape(value), Split(rest))
  {
    if value == [] {
      assert Escape(value) + rest == rest;
      AttachNothing(Split(rest));
    } else {
      EscapeCons(value);
      SplitEscaped(value[1..], rest);
      var e, t := EscapeChar(value[0]), Escape(value[1..]);
      Assoc(e, t, rest);
      SplitOne(value[0], t + rest);
      AttachTwice(e, t, Split(rest));
    }
  }

  lemma {:induction false} SplitJoin(cells: seq<string>)
    requires cells != []
    ensures Split(WriteLine(cells)) == EscapeAll(cells)
  {
    var first, others := cells[0], cells[1..];
    if others == [] {
      SplitEscaped(first, []);
      assert Escape(first) + [] == Escape(first);
      assert WriteLine(cells) == Escape(first);
    } else {
      SplitJoin(others);
      assert EscapeAll(cells)[1..] == EscapeAll(others);
      var rest := TAB + WriteLine(others);
      assert WriteLine(cells) == Escape(first) + rest;
      SplitEscaped(first, rest);
      assert rest[1..] == WriteLine(others);
      assert Escape(first) + [] == Escape(first);
    }
  }

  lemma {:induction false} UnescapeEscaped(cells: seq<string>)
    ensures UnescapeAll(EscapeAll(cells)) == Some(cells)
  {
    if cells != [] {
      assert EscapeAll(cells)[1..] == EscapeAll(cells[1..]);
      UnescapeEscaped(cells[1..]);
      UnescapeEscape(cells[0]);
      assert cells == [cells[0]] + cells[1..];
    }
  }

  /** A line gives back its cells exactly when there is at least one; a line always has a cell. */
  lemma {:induction false} RoundTrip(cells: seq<string>)
    ensures ReadLine(WriteLine(cells)) == Some(cells) <==> cells != []
    ensures '\n' !in WriteLine(cells) && '\r' !in WriteLine(cells)
  {
    JoinIsOneLine(cells);
    if cells == [] {
      assert Split([]) == [[]];
    } else {
      SplitJoin(cells);
      UnescapeEscaped(cells);
    }
  }

  lemma {:induction false} JoinIsOneLine(cells: seq<string>)
    ensures '\n' !in WriteLine(cells) && '\r' !in WriteLine(cells)
  {
    if cells != [] {
      EscapedIsPlain(cells[0]);
      JoinIsOneLine(cells[1..]);
      assert EscapeAll(cells)[1..] == EscapeAll(cells[1..]);
    }
  }

  // ---- which escaped texts are the ones the writer produces ----

  /** No raw separator, and no backslash left over at the end. */
  predicate Canonical(s: string) {
    if s == [] then true
    else if s[0] == '\\' then |s| > 1 && Decoded(s[1]).Some? && Canonical(s[2..])
    else s[0] != '\t' && s[0] != '\n' && s[0] != '\r' && Canonical(s[1..])
  }

  lemma {:induction false} EscapedIsCanonical(value: string)
    ensures Canonical(Escape(value))
  {
    if value != [] {
      EscapeCons(value);
      EscapedIsCanonical(value[1..]);
      var e, rest := EscapeChar(value[0]), Escape(value[1..]);
      assert (e + rest)[|e|..] == rest;
    }
  }

  lemma {:induction false} EscapeUnescape(s: string)
    requires Canonical(s)
    ensures Unescape(s).Some? && Escape(Unescape(s).value) == s
  {
    if s != [] {
      var n := if s[0] == '\\' then 2 else 1;
      EscapeUnescape(s[n..]);
      var tail := Unescape(s[n..]).value;
      var c := if s[0] == '\\' then Decoded(s[1]).value else s[0];
      assert Unescape(s) == Some([c] + tail);
      EscapeCons([c] + tail);
      assert ([c] + tail)[1..] == tail;
      assert EscapeChar(c) == s[..n];
    }
  }

  /** Unescaping and escaping again gives back a text exactly when it is canonical. */
  lemma {:induction false} CanonicalIff(s: string)
    ensures (Unescape(s).Some? && Escape(Unescape(s).value) == s) <==> Canonical(s)
  {
    if Canonical(s) {
      EscapeUnescape(s);
    } else if Unescape(s).Some? {
      EscapedIsCanonical(Unescape(s).value);
    }
  }
}
