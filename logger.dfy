/**
 * The daemon's line logger: every call of a level method splits the
 * formatted message into lines, trims the static `Logger.buffer`, then
 * pushes each line (after a prefix and before a newline) onto the buffer
 * and writes it to the `Logger.out` stream. `Logger.pipe` can flush the
 * buffer to a new stream, stripping ANSI colour codes unless colours are
 * wanted.
 *
 * The timestamp, the label and `util.format` are taken as the `prefix` and
 * `message` parameters; streams are sequences of the chunks written to them.
 */
module Logger {
  import opened Strings
  import opened JsValue

  /** `Logger.maxBuffer`. */
  const MaxBuffer: nat := 100

  // ---------------------------------------------------------------------
  // Level labels

  datatype Level = Log | Info | Warn | Error

  function LevelName(l: Level): string {
    match l
    case Log => "log"
    case Info => "info"
    case Warn => "warn"
    case Error => "error"
  }

  /** The ANSI code of `Logger.levels[level]`: gray, green, yellow, red. */
  function ColourCode(l: Level): nat {
    match l
    case Log => 90
    case Info => 32
    case Warn => 33
    case Error => 31
  }

  const Esc: char := 27 as char

  /** `ESC [ code m`: an SGR control sequence. */
  function Sgr(code: nat): string {
    [Esc, '['] + NatToString(code) + "m"
  }

  /** `colors[name](t)`: open with the colour's code, close with the default foreground 39. */
  function Coloured(code: nat, t: string): string {
    Sgr(code) + t + Sgr(39)
  }

  function Spaces(n: nat): (r: string)
    ensures |r| == n && forall j :: 0 <= j < n ==> r[j] == ' '
  {
    if n == 0 then "" else " " + Spaces(n - 1)
  }

  /** The padding after a level name: `5 - level.length` spaces when that is positive. */
  function Padding(l: Level): string {
    var n := 5 - |LevelName(l)|;
    if n > 0 then Spaces(n) else ""
  }

  /** `rlabel`: the logger's label, the coloured level name, ': ' and the padding. */
  function LevelLabel(tag: string, l: Level): string {
    tag + (Coloured(ColourCode(l), LevelName(l)) + ": ") + Padding(l)
  }

  /** The level label as it reads once its colour codes are stripped. */
  function PlainLabel(l: Level): string {
    LevelName(l) + ": " + Padding(l)
  }

  /** Every level label, without its colour codes, is exactly 7 characters wide. */
  lemma LabelWidth(l: Level)
    ensures |PlainLabel(l)| == 7
  {
    match l
    case Log => assert |Spaces(2)| == 2;
    case Info => assert |Spaces(1)| == 1;
    case Warn => assert |Spaces(1)| == 1;
    case Error =>
  }

  /** Stripping the colour codes from an unlabelled level label leaves the plain label. */
  lemma LabelStripped(l: Level)
    ensures StripAnsi(LevelLabel("", l)) == PlainLabel(l)
  {
    var name := LevelName(l);
    var tail := ": " + Padding(l);
    assert NoEsc(name) by {
      match l
      case Log =>
      case Info =>
      case Warn =>
      case Error =>
    }
    assert NoEsc(tail) by {
      assert forall j :: 0 <= j < |Padding(l)| ==> Padding(l)[j] == ' ';
    }
    assert LevelLabel("", l) == Coloured(ColourCode(l), name) + tail by {
      assert "" + (Coloured(ColourCode(l), name) + ": ") == Coloured(ColourCode(l), name) + ": ";
    }
    assert PlainLabel(l) == name + tail;
    StripColoured(ColourCode(l), name, tail);
  }

  /** Coloured text without escapes of its own, followed by more such text, loses exactly its two SGR sequences. */
  lemma StripColoured(code: nat, name: string, tail: string)
    requires NoEsc(name) && NoEsc(tail)
    ensures StripAnsi(Coloured(code, name) + tail) == name + tail
  {
    assert Coloured(code, name) + tail == Sgr(code) + (name + (Sgr(39) + tail));
    StripSgr(code, name + (Sgr(39) + tail));
    StripPlain(name, Sgr(39) + tail);
    StripSgr(39, tail);
    StripNoEsc(tail);
  }

  // ---------------------------------------------------------------------
  // The colour-strip regex /\x1B\[\d+m/g

  predicate NoEsc(s: string) {
    forall j :: 0 <= j < |s| ==> s[j] != Esc
  }

  /** The length of a match of `\x1B\[\d+m` at the front of `s`, or 0 when there is none. */
  function MatchLength(s: string): (m: nat)
    ensures m == 0 || (4 <= m <= |s|)
  {
    if |s| >= 2 && s[0] == Esc && s[1] == '[' then
      var d := DigitRun(s, 2);
      if d > 0 && 2 + d < |s| && s[2 + d] == 'm' then d + 3 else 0
    else 0
  }

  /**
   * `s.replace(/\x1B\[\d+m/g, '')`: the scan tries a match at each
   * position from left to right, deletes it and resumes after it, or keeps
   * the character and moves on.
   */
  function StripAnsi(s: string): (r: string)
    ensures |r| <= |s|
  {
    if s == [] then ""
    else
      var m := MatchLength(s);
      if m > 0 then StripAnsi(s[m..]) else [s[0]] + StripAnsi(s[1..])
  }

  /** `a` can be obtained from `b` by deleting characters. */
  predicate Subsequence(a: string, b: string)
    decreases |b|
  {
    if a == [] then true
    else if b == [] then false
    else (a[0] == b[0] && Subsequence(a[1..], b[1..])) || Subsequence(a, b[1..])
  }

  lemma {:induction false} SubsequenceSkip(a: string, b: string, k: nat)
    requires k <= |b| && Subsequence(a, b[k..])
    ensures Subsequence(a, b)
    decreases k
  {
    if k > 0 && a != [] {
      assert b[k - 1..][1..] == b[k..];
      SubsequenceSkip(a, b, k - 1);
    }
  }

  /** Stripping only deletes characters: the ones left keep their order. */
  lemma {:induction false} StripKeepsOrder(s: string)
    ensures Subsequence(StripAnsi(s), s)
    decreases |s|
  {
    if s != [] {
      var m := MatchLength(s);
      if m > 0 {
        StripKeepsOrder(s[m..]);
        SubsequenceSkip(StripAnsi(s[m..]), s, m);
      } else {
        StripKeepsOrder(s[1..]);
        var r := [s[0]] + StripAnsi(s[1..]);
        assert r[0] == s[0] && r[1..] == StripAnsi(s[1..]);
      }
    }
  }

  /** Text without an escape character passes through unchanged. */
  lemma {:induction false} StripNoEsc(s: string)
    requires NoEsc(s)
    ensures StripAnsi(s) == s
    decreases |s|
  {
    if s != [] {
      StripNoEsc(s[1..]);
      assert s == [s[0]] + s[1..];
    }
  }

  /** Text without an escape character at the front is kept, then the rest is stripped. */
  lemma {:induction false} StripPlain(p: string, t: string)
    requires NoEsc(p)
    ensures StripAnsi(p + t) == p + StripAnsi(t)
    decreases |p|
  {
    if p != [] {
      var s := p + t;
      assert s[0] == p[0] && s[1..] == p[1..] + t;
      StripPlain(p[1..], t);
      assert p == [p[0]] + p[1..];
    } else {
      assert p + t == t;
    }
  }

  /** An SGR sequence at the front is deleted. */
  lemma StripSgr(code: nat, t: string)
    ensures StripAnsi(Sgr(code) + t) == StripAnsi(t)
  {
    var digits := NatToString(code);
    var s := Sgr(code) + t;
    assert s == [Esc, '['] + (digits + ("m" + t));
    DigitRunAfter([Esc, '['], digits, "m" + t, 0);
    assert s[2 + |digits|] == 'm';
    assert MatchLength(s) == |Sgr(code)|;
    assert s[|Sgr(code)|..] == t;
  }

  /** After a two-character head, the digit run over `digits` stops at the 'm' that follows them. */
  lemma {:induction false} DigitRunAfter(head: string, digits: string, rest: string, j: nat)
    requires |head| == 2 && AllDigits(digits) && rest != [] && rest[0] == 'm' && j <= |digits|
    ensures DigitRun(head + (digits + rest), 2 + j) == |digits| - j
    decreases |digits| - j
  {
    var s := head + (digits + rest);
    if j < |digits| {
      assert s[2 + j] == digits[j];
      DigitRunAfter(head, digits, rest, j + 1);
    } else {
      assert s[2 + j] == 'm';
    }
  }

  // ---------------------------------------------------------------------
  // The line buffer

  /** The start index of `splice(n)` on an array of `len` entries; the entries before it are kept. */
  function SpliceStart(len: nat, n: int): (k: nat)
    ensures k <= len
  {
    if n >= 0 then (if n < len then n else len)
    else if len + n > 0 then len + n else 0
  }

  /** How many old entries survive a call that logs `k` lines onto a buffer of `len`. */
  function Kept(len: nat, k: nat): (kept: nat)
    ensures kept <= len
  {
    var n := MaxBuffer - (len + k);
    if n == 0 then len else SpliceStart(len, n)
  }

  /** The buffer entries of one call: each line after the prefix and before a newline. */
  function Entries(prefix: string, lines: seq<string>): seq<string>
  {
    seq(|lines|, j requires 0 <= j < |lines| => prefix + lines[j] + "\n")
  }

  /** A sink stream: the chunks written to it. */
  class Sink {
    var written: seq<string>

    constructor()
      ensures written == []
    {
      written := [];
    }
  }

  /** `Logger.buffer` and the chunks written to `Logger.out`. */
  class LoggerState {
    var buffer: seq<string>
    var out: seq<string>

    constructor()
      ensures buffer == [] && out == []
    {
      buffer := [];
      out := [];
    }

    /** One level-method call: trim the buffer with `splice(n)`, then push and write each line. */
    method Write(prefix: string, message: string)
      modifies this
      ensures var lines := Split(message, '\n');
              buffer == old(buffer)[..Kept(|old(buffer)|, |lines|)] + Entries(prefix, lines) &&
              out == old(out) + Entries(prefix, lines)
    {
      var lines := Split(message, '\n');
      var n := MaxBuffer - (|buffer| + |lines|);
      if n != 0 {
        buffer := buffer[..SpliceStart(|buffer|, n)];
      }
      ghost var kept := buffer;
      ghost var written := out;
      var i := 0;
      while i < |lines|
        invariant 0 <= i <= |lines|
        invariant buffer == kept + Entries(prefix, lines[..i])
        invariant out == written + Entries(prefix, lines[..i])
      {
        var str := prefix + lines[i] + "\n";
        assert Entries(prefix, lines[..i + 1]) == Entries(prefix, lines[..i]) + [str];
        buffer := buffer + [str];
        out := out + [str];
        i := i + 1;
      }
      assert lines[..i] == lines;
    }

    /** `Logger.pipe(sink, { flush, colors })`: with `flush`, every buffered line goes to the sink, stripped unless `colors`. */
    method Pipe(sink: Sink, flush: bool, colors: bool)
      modifies sink
      ensures sink.written == old(sink.written) + (if flush then Shown(buffer, colors) else [])
    {
      if flush {
        ghost var before := sink.written;
        var i := 0;
        while i < |buffer|
          invariant 0 <= i <= |buffer|
          invariant sink.written == before + Shown(buffer[..i], colors)
        {
          var chunk := if colors then buffer[i] else StripAnsi(buffer[i]);
          assert Shown(buffer[..i + 1], colors) == Shown(buffer[..i], colors) + [chunk];
          sink.written := sink.written + [chunk];
          i := i + 1;
        }
        assert buffer[..i] == buffer;
      }
    }
  }

  /** The chunks a flush delivers: the lines themselves, or with their colour codes stripped. */
  function Shown(lines: seq<string>, colors: bool): seq<string>
  {
    seq(|lines|, j requires 0 <= j < |lines| => if colors then lines[j] else StripAnsi(lines[j]))
  }

  /** After a call the buffer holds at most `max(100, k)` entries for `k` new lines. */
  lemma BufferBound(len: nat, k: nat)
    ensures Kept(len, k) + k <= if k > MaxBuffer then k else MaxBuffer
    ensures len + k == MaxBuffer ==> Kept(len, k) == len
  {
  }

  /**
   * The entries `splice(n)` keeps are the oldest: with the buffer under
   * the limit, the surviving old entries number `min(len, n)`, so a buffer
   * of 60 lines logging one more keeps only its first 39.
   */
  lemma SpliceKeepsOldest(len: nat, k: nat)
    requires len + k < MaxBuffer
    ensures Kept(len, k) == if len < MaxBuffer - (len + k) then len else MaxBuffer - (len + k)
    ensures len == 60 && k == 1 ==> Kept(len, k) == 39
  {
  }

  /** Over the limit, the surviving old entries number `max(0, 100 - k)`. */
  lemma SpliceOverLimit(len: nat, k: nat)
    requires len + k > MaxBuffer
    ensures Kept(len, k) == if k < MaxBuffer then MaxBuffer - k else 0
  {
  }
}
