/** The control connection of src-tauri/src/protocol/ftp/client.rs: cutting the stream of
    characters into replies (section 4.2 of RFC 959), and the path in a PWD reply. */
module FtpReplies {
  import opened Wrappers

  datatype Reply = Reply(code: nat, text: string)

  datatype ReplyError = ConnectionLost | InvalidReply

  // Lines

  /** Up to and including the first line feed, or all there is. */
  function LineLength(stream: string): (n: nat)
    ensures n <= |stream|
    ensures stream != "" ==> n > 0
  {
    if stream == "" then 0
    else if stream[0] == '\n' then 1
    else 1 + LineLength(stream[1..])
  }

  function TrimEnd(s: string): string {
    if s != "" && (s[|s| - 1] == '\r' || s[|s| - 1] == '\n') then TrimEnd(s[..|s| - 1]) else s
  }

  /** The next line without its end, and the rest of the stream. */
  function TakeLine(stream: string): Result<(string, string), ReplyError> {
    if stream == "" then Failure(ConnectionLost)
    else Success((TrimEnd(stream[..LineLength(stream)]), stream[LineLength(stream)..]))
  }

  predicate IsDigit(c: char) {
    '0' <= c <= '9'
  }

  function Value(c: char): nat
    requires IsDigit(c)
  {
    c as nat - '0' as nat
  }

  /** `parse_reply_code`: the number in the first three characters, if they are digits. */
  function ReplyCode(line: string): Option<nat> {
    if |line| >= 3 && IsDigit(line[0]) && IsDigit(line[1]) && IsDigit(line[2])
    then Some(Value(line[0]) * 100 + Value(line[1]) * 10 + Value(line[2]))
    else None
  }

  predicate HasAt(line: string, i: nat, c: char) {
    i < |line| && line[i] == c
  }

  /** The line that ends a multi-line reply. */
  predicate Terminates(line: string, code: nat) {
    ReplyCode(line) == Some(code) && HasAt(line, 3, ' ')
  }

  function From(line: string, i: nat): string {
    if i <= |line| then line[i..] else ""
  }

  /** The text behind code and separator of a single line. The source counts octets there: behind a
      separator that is not ASCII it finds no text at all. */
  function SingleText(line: string): string {
    if |line| > 3 && line[3] >= '\U{80}' then "" else From(line, 4)
  }

  function Join(lines: seq<string>): string {
    if lines == [] then ""
    else if |lines| == 1 then lines[0]
    else Join(lines[..|lines| - 1]) + "\n" + lines[|lines| - 1]
  }

  // Replies

  function ReadReply(stream: string): Result<(Reply, string), ReplyError> {
    var (first, rest) :- TakeLine(stream);
    match ReplyCode(first)
    case None => Failure(InvalidReply)
    case Some(code) =>
      if !HasAt(first, 3, '-') then Success((Reply(code, SingleText(first)), rest))
      else ReadMore(code, [From(first, 4)], rest)
  }

  function ReadMore(code: nat, lines: seq<string>, stream: string): Result<(Reply, string), ReplyError>
    decreases |stream|
  {
    if stream == "" then Failure(ConnectionLost)
    else
      var (line, rest) := (TrimEnd(stream[..LineLength(stream)]), stream[LineLength(stream)..]);
      if Terminates(line, code) then Success((Reply(code, Join(lines + [From(line, 4)])), rest))
      else ReadMore(code, lines + [line], rest)
  }

  /** The receiving end of a control connection. */
  class ControlChannel {
    var stream: string

    constructor (stream: string)
      ensures this.stream == stream
    {
      this.stream := stream;
    }

    method NextLine() returns (r: Result<string, ReplyError>)
      modifies this
      ensures match TakeLine(old(stream))
              case Success((line, rest)) => r == Success(line) && stream == rest
              case Failure(e) => r == Failure(e) && stream == old(stream)
      ensures r.Success? ==> |stream| < |old(stream)|
    {
      if stream == "" {
        return Failure(ConnectionLost);
      }
      var n := LineLength(stream);
      r := Success(TrimEnd(stream[..n]));
      stream := stream[n..];
    }

    /** `read_reply`. */
    method NextReply() returns (r: Result<Reply, ReplyError>)
      modifies this
      ensures match ReadReply(old(stream))
              case Success((reply, rest)) => r == Success(reply) && stream == rest
              case Failure(e) => r == Failure(e)
    {
      hide TrimEnd, LineLength, Join;
      var first :- NextLine();
      var code := ReplyCode(first);
      if code.None? {
        return Failure(InvalidReply);
      }
      if !HasAt(first, 3, '-') {
        return Success(Reply(code.value, SingleText(first)));
      }
      var lines := [From(first, 4)];
      while true
        invariant ReadReply(old(stream)) == ReadMore(code.value, lines, stream)
        decreases |stream|
      {
        var line :- NextLine();
        if Terminates(line, code.value) {
          lines := lines + [From(line, 4)];
          return Success(Reply(code.value, Join(lines)));
        }
        lines := lines + [line];
      }
    }
  }

  // What a server sends

  /** One reply as a server writes it: a single line, or several. */
  datatype Sent =
    | Single(digits: string, tail: string)
    | Multi(digits: string, first: string, inner: seq<string>, last: string)

  function Line(s: string): string {
    s + "\r\n"
  }

  function Lines(lines: seq<string>): string {
    if lines == [] then "" else Line(lines[0]) + Lines(lines[1..])
  }

  function Serialised(sent: Sent): string {
    match sent
    case Single(digits, tail) => Line(digits + tail)
    case Multi(digits, first, inner, last) =>
      Line(digits + "-" + first) + (Lines(inner) + Line(digits + " " + last))
  }

  function Meaning(sent: Sent): Reply
    requires ReplyCode(sent.digits).Some?
  {
    var code := ReplyCode(sent.digits).value;
    match sent
    case Single(_, tail) => Reply(code, From(tail, 1))
    case Multi(_, first, inner, last) => Reply(code, Join([first] + inner + [last]))
  }

  /** Text that fits on a line. */
  predicate Clean(s: string) {
    '\n' !in s && (s != "" ==> s[|s| - 1] != '\r')
  }

  predicate WellFormed(sent: Sent) {
    && |sent.digits| == 3 && ReplyCode(sent.digits).Some?
    && match sent
       case Single(_, tail) => Clean(tail) && !HasAt(tail, 0, '-')
       case Multi(_, first, inner, last) =>
         Clean(first) && Clean(last) && forall i :: 0 <= i < |inner| ==> Clean(inner[i])
  }

  /** No inner line of the reply looks like its last one. Lines that start with another code, or
      with the same code and a hyphen, do not. A single line has no text behind a separator that is
      not ASCII; the standard asks for a space. */
  predicate Unambiguous(sent: Sent)
    requires ReplyCode(sent.digits).Some?
  {
    match sent
    case Single(_, tail) => |tail| > 1 ==> tail[0] < '\U{80}'
    case Multi(digits, _, inner, _) =>
      forall i :: 0 <= i < |inner| ==> !Terminates(inner[i], ReplyCode(digits).value)
  }

  lemma {:induction false} LineLengthOf(s: string, rest: string)
    requires '\n' !in s
    ensures LineLength(s + "\r\n" + rest) == |s| + 2
  {
    var stream := s + "\r\n" + rest;
    if s == "" {
      assert stream[0] == '\r' && stream[1..][0] == '\n';
    } else {
      LineLengthOf(s[1..], rest);
      assert stream[1..] == s[1..] + "\r\n" + rest;
    }
  }

  /** Reading a line takes exactly that line off the stream. */
  lemma TakesOneLine(s: string, rest: string)
    requires Clean(s)
    ensures Line(s) + rest != ""
    ensures TakeLine(Line(s) + rest) == Success((s, rest))
  {
    var stream := Line(s) + rest;
    assert stream == s + "\r\n" + rest;
    LineLengthOf(s, rest);
    var raw := stream[..|s| + 2];
    assert raw == s + "\r\n";
    assert raw[..|s| + 1] == s + "\r" && (s + "\r")[..|s|] == s;
    assert TrimEnd(raw) == TrimEnd(s + "\r") == TrimEnd(s) == s;
    assert stream[|s| + 2..] == rest;
  }

  lemma CodeOfLine(digits: string, tail: string)
    requires |digits| == 3 && ReplyCode(digits).Some?
    ensures ReplyCode(digits + tail) == ReplyCode(digits)
    ensures HasAt(digits + tail, 3, '-') == HasAt(tail, 0, '-')
    ensures HasAt(digits + tail, 3, ' ') == HasAt(tail, 0, ' ')
    ensures From(digits + tail, 4) == From(tail, 1)
    ensures SingleText(digits + tail) == if tail != "" && tail[0] >= '\U{80}' then "" else From(tail, 1)
    ensures Clean(tail) ==> Clean(digits + tail)
  {
    if tail == "" {
      assert digits + tail == digits;
    }
  }

  /** Inner lines that do not terminate are collected; one that does ends the reply there. */
  lemma {:induction false} InnerLines(code: nat, lines: seq<string>, inner: seq<string>, stream: string)
    requires forall i :: 0 <= i < |inner| ==> Clean(inner[i]) && !Terminates(inner[i], code)
    ensures ReadMore(code, lines, Lines(inner) + stream) == ReadMore(code, lines + inner, stream)
    decreases |inner|
  {
    hide TrimEnd, LineLength, Terminates, Clean, Line;
    if inner == [] {
      assert Lines(inner) + stream == stream && lines + inner == lines;
    } else {
      var rest := Lines(inner[1..]) + stream;
      assert Lines(inner) + stream == Line(inner[0]) + rest;
      TakesOneLine(inner[0], rest);
      InnerLines(code, lines + [inner[0]], inner[1..], stream);
      assert lines + [inner[0]] + inner[1..] == lines + inner;
    }
  }

  lemma LastLine(code: nat, lines: seq<string>, line: string, rest: string)
    requires Clean(line) && Terminates(line, code)
    ensures ReadMore(code, lines, Line(line) + rest) == Success((Reply(code, Join(lines + [From(line, 4)])), rest))
  {
    hide TrimEnd, LineLength, Clean, Line, Terminates;
    TakesOneLine(line, rest);
  }

  /** Reading a well-formed reply gives that reply and consumes exactly its lines. */
  lemma ReadsOneReply(sent: Sent, rest: string)
    requires WellFormed(sent) && Unambiguous(sent)
    ensures ReadReply(Serialised(sent) + rest) == Success((Meaning(sent), rest))
  {
    hide TrimEnd, LineLength, Line, Lines, ReplyCode, Clean, Join;
    match sent
    case Single(digits, tail) =>
      CodeOfLine(digits, tail);
      TakesOneLine(digits + tail, rest);
    case Multi(digits, first, inner, last) =>
      MultiParts(sent, rest);
      var code := ReplyCode(digits).value;
      var afterFirst := Lines(inner) + (Line(digits + " " + last) + rest);
      TakesOneLine(digits + "-" + first, afterFirst);
      InnerLines(code, [first], inner, Line(digits + " " + last) + rest);
      LastLine(code, [first] + inner, digits + " " + last, rest);
  }

  lemma MultiParts(sent: Sent, rest: string)
    requires WellFormed(sent) && sent.Multi?
    ensures var code := ReplyCode(sent.digits).value;
            var head, tail := sent.digits + "-" + sent.first, sent.digits + " " + sent.last;
            && Serialised(sent) + rest == Line(head) + (Lines(sent.inner) + (Line(tail) + rest))
            && Clean(head) && ReplyCode(head) == Some(code) && HasAt(head, 3, '-') && From(head, 4) == sent.first
            && Clean(tail) && Terminates(tail, code) && From(tail, 4) == sent.last
  {
    hide Lines, Line;
    CodeOfLine(sent.digits, "-" + sent.first);
    CodeOfLine(sent.digits, " " + sent.last);
    assert sent.digits + "-" + sent.first == sent.digits + ("-" + sent.first);
    assert sent.digits + " " + sent.last == sent.digits + (" " + sent.last);
    assert From("-" + sent.first, 1) == sent.first && From(" " + sent.last, 1) == sent.last;
    assert Clean("-" + sent.first) && Clean(" " + sent.last) by {
      CleanBehind('-', sent.first);
      CleanBehind(' ', sent.last);
    }
  }

  lemma CleanBehind(c: char, s: string)
    requires Clean(s) && c != '\n' && c != '\r'
    ensures Clean([c] + s)
  {
  }

  // Codes, texts and errors, as such

  /** The code of a line is the number that its first three digits show. */
  lemma CodeIsTheNumber(hundreds: nat, tens: nat, ones: nat, tail: string)
    requires hundreds < 10 && tens < 10 && ones < 10
    ensures var digits := [('0' as int + hundreds) as char, ('0' as int + tens) as char, ('0' as int + ones) as char];
            ReplyCode(digits + tail) == Some(100 * hundreds + 10 * tens + ones)
  {
  }

  /** A line has a code if and only if it starts with three digits. */
  lemma CodeNeedsDigits(line: string)
    ensures ReplyCode(line).None? <==> |line| < 3 || exists i :: 0 <= i < 3 && !('0' <= line[i] <= '9')
  {
    if ReplyCode(line).Some? {
      assert IsDigit(line[0]) && IsDigit(line[1]) && IsDigit(line[2]);
    } else if |line| >= 3 {
      assert !IsDigit(line[0]) || !IsDigit(line[1]) || !IsDigit(line[2]);
    }
  }

  /** Only a line that starts with the very digits of the reply and a space ends it. */
  lemma TerminatesExactly(digits: string, line: string)
    requires |digits| == 3 && ReplyCode(digits).Some?
    ensures Terminates(line, ReplyCode(digits).value) <==> digits + " " <= line
  {
    if digits + " " <= line {
      assert line[..4] == digits + " ";
      assert line[0] == digits[0] && line[1] == digits[1] && line[2] == digits[2] && line[3] == ' ';
    }
  }

  /** The lines of a text, which line feeds set off. */
  function TextLines(text: string): seq<string> {
    if text == "" then [""]
    else
      var front := TextLines(text[..|text| - 1]);
      var c := text[|text| - 1];
      if c == '\n' then front + [""]
      else if front == [] then [[c]]
      else front[..|front| - 1] + [front[|front| - 1] + [c]]
  }

  lemma {:induction false} OneMoreTextLine(text: string, line: string)
    requires '\n' !in line
    ensures TextLines(text + "\n" + line) == TextLines(text) + [line]
    decreases |line|
  {
    var whole := text + "\n" + line;
    if line == "" {
      assert whole[..|whole| - 1] == text;
    } else {
      var shorter := line[..|line| - 1];
      OneMoreTextLine(text, shorter);
      assert whole[..|whole| - 1] == text + "\n" + shorter;
      assert shorter + [line[|line| - 1]] == line;
    }
  }

  lemma {:induction false} OneTextLine(line: string)
    requires '\n' !in line
    ensures TextLines(line) == [line]
  {
    if line != "" {
      OneTextLine(line[..|line| - 1]);
      assert line[..|line| - 1] + [line[|line| - 1]] == line;
    }
  }

  /** The text of a multi-line reply shows its lines one by one. */
  lemma {:induction false} JoinedLinesAreTold(lines: seq<string>)
    requires lines != [] && forall i :: 0 <= i < |lines| ==> '\n' !in lines[i]
    ensures TextLines(Join(lines)) == lines
  {
    hide TextLines;
    var n := |lines| - 1;
    if n == 0 {
      OneTextLine(lines[0]);
    } else {
      JoinedLinesAreTold(lines[..n]);
      OneMoreTextLine(Join(lines[..n]), lines[n]);
      FrontAndLast(lines);
    }
  }

  lemma FrontAndLast(lines: seq<string>)
    requires lines != []
    ensures lines[..|lines| - 1] + [lines[|lines| - 1]] == lines
  {
  }

  /** Reading fails as invalid if and only if there is a line and it does not start with a code. Any
      other failure is that the stream ended before the reply did. */
  lemma InvalidIffNoCode(stream: string)
    ensures ReadReply(stream) == Failure(InvalidReply) <==>
            stream != "" && ReplyCode(TrimEnd(stream[..LineLength(stream)])).None?
    ensures stream == "" ==> ReadReply(stream) == Failure(ConnectionLost)
  {
    hide TrimEnd, ReplyCode, Join;
    if stream != "" {
      var first, rest := TrimEnd(stream[..LineLength(stream)]), stream[LineLength(stream)..];
      if ReplyCode(first).Some? {
        NeverInvalid(ReplyCode(first).value, [From(first, 4)], rest);
      }
    }
  }

  lemma {:induction false} NeverInvalid(code: nat, lines: seq<string>, stream: string)
    ensures ReadMore(code, lines, stream) != Failure(InvalidReply)
    decreases |stream|
  {
    hide TrimEnd, Terminates, Join;
    if stream != "" {
      var line, rest := TrimEnd(stream[..LineLength(stream)]), stream[LineLength(stream)..];
      NeverInvalid(code, lines + [line], rest);
    }
  }

  /** A multi-line reply is not returned before its last line is there. */
  lemma UnfinishedIsLost(sent: Sent, n: nat)
    requires WellFormed(sent) && Unambiguous(sent) && sent.Multi? && n <= |sent.inner|
    ensures ReadReply(Line(sent.digits + "-" + sent.first) + Lines(sent.inner[..n])) == Failure(ConnectionLost)
  {
    hide TrimEnd, LineLength, Line, Lines, ReplyCode, Clean, Join;
    MultiParts(sent, "");
    var code, lines := ReplyCode(sent.digits).value, Lines(sent.inner[..n]);
    TakesOneLine(sent.digits + "-" + sent.first, lines);
    InnerLines(code, [sent.first], sent.inner[..n], "");
    assert lines + "" == lines;
  }

  function SerialisedAll(sent: seq<Sent>): string {
    if sent == [] then "" else Serialised(sent[0]) + SerialisedAll(sent[1..])
  }

  /** Reads a number of replies, one after the other. */
  function ReadReplies(n: nat, stream: string): Result<(seq<Reply>, string), ReplyError> {
    if n == 0 then Success(([], stream))
    else
      var (reply, rest) :- ReadReply(stream);
      var (more, end) :- ReadReplies(n - 1, rest);
      Success(([reply] + more, end))
  }

  function Meanings(sent: seq<Sent>): seq<Reply>
    requires forall i :: 0 <= i < |sent| ==> WellFormed(sent[i])
  {
    if sent == [] then []
    else
      assert WellFormed(sent[0]);
      [Meaning(sent[0])] + Meanings(sent[1..])
  }

  /** The control stream stays in step: reading as many replies as were sent gives exactly these
      and leaves exactly what comes after them. */
  lemma {:induction false} StaysInStep(sent: seq<Sent>, rest: string)
    requires forall i :: 0 <= i < |sent| ==> WellFormed(sent[i]) && Unambiguous(sent[i])
    ensures ReadReplies(|sent|, SerialisedAll(sent) + rest) == Success((Meanings(sent), rest))
  {
    hide ReadReply, Serialised, WellFormed, Unambiguous, Meaning;
    if sent == [] {
      assert SerialisedAll(sent) + rest == rest;
    } else {
      var tail := SerialisedAll(sent[1..]) + rest;
      assert SerialisedAll(sent) + rest == Serialised(sent[0]) + tail;
      ReadsOneReply(sent[0], tail);
      StaysInStep(sent[1..], rest);
    }
  }

  /** The condition is needed: at the first inner line that looks like the last one the reply
      ends, and everything behind that line is taken for the next reply. */
  lemma AmbiguityBreaksStep(sent: Sent, k: nat, rest: string)
    requires WellFormed(sent) && sent.Multi? && k < |sent.inner|
    requires Terminates(sent.inner[k], ReplyCode(sent.digits).value)
    requires forall i :: 0 <= i < k ==> !Terminates(sent.inner[i], ReplyCode(sent.digits).value)
    ensures var r := ReadReply(Serialised(sent) + rest);
            r.Success? && r.value.1 == Lines(sent.inner[k + 1..]) + (Line(sent.digits + " " + sent.last) + rest)
    ensures ReadReply(Serialised(sent) + rest) != Success((Meaning(sent), rest))
  {
    hide TrimEnd, LineLength, Lines, Line, ReplyCode, Clean, Join;
    var code, inner := ReplyCode(sent.digits).value, sent.inner;
    MultiParts(sent, rest);
    var final := Line(sent.digits + " " + sent.last) + rest;
    TakesOneLine(sent.digits + "-" + sent.first, Lines(inner) + final);
    var behind := Lines(inner[k + 1..]) + final;
    SplitLines(inner, k);
    assert Lines(inner) + final == Lines(inner[..k]) + (Line(inner[k]) + behind);
    InnerLines(code, [sent.first], inner[..k], Line(inner[k]) + behind);
    LastLine(code, [sent.first] + inner[..k], inner[k], behind);
    LineIsLonger(sent.digits + " " + sent.last);
  }

  /** The first of several inner lines that look like the last. */
  lemma {:induction false} FirstTerminating(inner: seq<string>, code: nat, i: nat) returns (k: nat)
    requires i < |inner| && Terminates(inner[i], code)
    ensures k <= i && Terminates(inner[k], code) && forall j :: 0 <= j < k ==> !Terminates(inner[j], code)
  {
    k := i;
    if j :| 0 <= j < i && Terminates(inner[j], code) {
      k := FirstTerminating(inner, code, j);
    }
  }

  lemma LosesText(sent: Sent, rest: string)
    requires WellFormed(sent) && sent.Single? && !Unambiguous(sent)
    ensures ReadReply(Serialised(sent) + rest) == Success((Reply(Meaning(sent).code, ""), rest))
    ensures Meaning(sent).text != ""
  {
    hide TrimEnd, LineLength, Line, ReplyCode, Clean, Join;
    CodeOfLine(sent.digits, sent.tail);
    TakesOneLine(sent.digits + sent.tail, rest);
  }

  /** A reply is read back, and exactly its lines are consumed, if and only if none of its inner
      lines looks like its last one, and it does not hide its text behind a separator that is not
      ASCII. */
  lemma ReadBackIffUnambiguous(sent: Sent, rest: string)
    requires WellFormed(sent)
    ensures ReadReply(Serialised(sent) + rest) == Success((Meaning(sent), rest)) <==> Unambiguous(sent)
  {
    hide ReadReply, Serialised, Meaning, Terminates, Clean;
    if Unambiguous(sent) {
      ReadsOneReply(sent, rest);
    } else if sent.Single? {
      LosesText(sent, rest);
    } else {
      var code := ReplyCode(sent.digits).value;
      var i :| 0 <= i < |sent.inner| && Terminates(sent.inner[i], code);
      var k := FirstTerminating(sent.inner, code, i);
      AmbiguityBreaksStep(sent, k, rest);
    }
  }

  lemma LineIsLonger(s: string)
    ensures |Line(s)| > 0
  {
  }

  lemma {:induction false} SplitLines(lines: seq<string>, k: nat)
    requires k < |lines|
    ensures Lines(lines) == Lines(lines[..k]) + (Line(lines[k]) + Lines(lines[k + 1..]))
  {
    hide Line;
    if k > 0 {
      SplitLines(lines[1..], k - 1);
      assert lines[1..][..k - 1] == lines[..k][1..];
      assert lines[1..][k..] == lines[k + 1..];
    }
  }

  // PWD

  function IndexOf(s: string, c: char): (i: nat)
    ensures i <= |s|
    ensures i < |s| ==> s[i] == c
    ensures c !in s[..i]
  {
    if s == "" || s[0] == c then 0 else 1 + IndexOf(s[1..], c)
  }

  /** The characters up to the closing quote, each doubled quote read as one. */
  function Unquoted(s: string): string {
    if s == "" then ""
    else if s[0] != '"' then [s[0]] + Unquoted(s[1..])
    else if |s| > 1 && s[1] == '"' then "\"" + Unquoted(s[2..])
    else ""
  }

  function PwdPath(text: string): Option<string> {
    var start := IndexOf(text, '"');
    if start == |text| then None else Some(Unquoted(text[start + 1..]))
  }

  /** `parse_pwd`. */
  method ParsePwd(text: string) returns (path: Option<string>)
    ensures path == PwdPath(text)
  {
    var start := IndexOf(text, '"');
    if start == |text| {
      return None;
    }
    var rest := text[start + 1..];
    var out := "";
    while rest != ""
      invariant Unquoted(text[start + 1..]) == out + Unquoted(rest)
      decreases |rest|
    {
      var c := rest[0];
      if c != '"' {
        out := out + [c];
        rest := rest[1..];
      } else if |rest| > 1 && rest[1] == '"' {
        out := out + "\"";
        rest := rest[2..];
      } else {
        assert out + "" == out;
        return Some(out);
      }
    }
    assert out + "" == out;
    path := Some(out);
  }

  /** How a server quotes a path (Appendix II of RFC 959). */
  function Doubled(path: string): string {
    if path == "" then ""
    else (if path[0] == '"' then "\"\"" else [path[0]]) + Doubled(path[1..])
  }

  lemma {:induction false} UnquoteDoubled(path: string, after: string)
    ensures !HasAt(after, 0, '"') ==> Unquoted(Doubled(path) + "\"" + after) == path
    ensures HasAt(after, 0, '"') ==> |Unquoted(Doubled(path) + "\"" + after)| > |path|
  {
    var s := Doubled(path) + "\"" + after;
    if path == "" {
      assert s == "\"" + after;
      if after != "" {
        assert s[1] == after[0];
      }
    } else {
      UnquoteDoubled(path[1..], after);
      var tail := Doubled(path[1..]) + "\"" + after;
      if path[0] == '"' {
        assert s == "\"\"" + tail;
        assert s[2..] == tail;
      } else {
        assert s == [path[0]] + tail;
        assert s[1..] == tail;
      }
    }
  }

  lemma {:induction false} FirstQuote(before: string, s: string)
    requires '"' !in before
    ensures IndexOf(before + "\"" + s, '"') == |before|
  {
    if before != "" {
      FirstQuote(before[1..], s);
      assert (before + "\"" + s)[1..] == before[1..] + "\"" + s;
    }
  }

  /** The path of a PWD reply is read back, whatever it is, if and only if the text behind the
      closing quote does not start with another quote. */
  lemma PwdRoundTrip(before: string, path: string, after: string)
    requires '"' !in before
    ensures PwdPath(before + "\"" + Doubled(path) + "\"" + after) == Some(path) <==> !HasAt(after, 0, '"')
  {
    var quoted := Doubled(path) + "\"" + after;
    var text := before + "\"" + Doubled(path) + "\"" + after;
    assert text == before + "\"" + quoted;
    FirstQuote(before, quoted);
    assert text[|before| + 1..] == quoted;
    UnquoteDoubled(path, after);
  }
}
