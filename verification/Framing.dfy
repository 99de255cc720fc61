/** Splitting and line framing of service/remote.lua. */
module Framing {
  import opened Bits

  // ---------- plain search ----------

  predicate OccursAt(s: string, sep: string, i: nat)
  {
    i + |sep| <= |s| && s[i..i + |sep|] == sep
  }

  ghost predicate Contains(s: string, sep: string)
  {
    exists i: nat :: OccursAt(s, sep, i)
  }

  /** string.find(s, sep, from + 1, true), counting from zero. */
  function Find(s: string, sep: string, from: nat): (r: Option<nat>)
    requires from <= |s|
    ensures r.Some? ==> from <= r.value && OccursAt(s, sep, r.value)
    ensures forall i :: from <= i && (r.Some? ==> i < r.value) ==> !OccursAt(s, sep, i)
    decreases |s| - from
  {
    if OccursAt(s, sep, from) then Some(from)
    else if from == |s| then None
    else Find(s, sep, from + 1)
  }

  /** The first occurrence is what is found. */
  lemma {:induction false} FindFirst(s: string, sep: string, from: nat, p: nat)
    requires from <= p && OccursAt(s, sep, p)
    requires forall i :: from <= i < p ==> !OccursAt(s, sep, i)
    ensures from <= |s| && Find(s, sep, from) == Some(p)
    decreases p - from
  {
    if from < p {
      FindFirst(s, sep, from + 1, p);
    }
  }

  /** What occurs in the front part occurs in the whole, at the same place. */
  lemma OccursInFront(a: string, b: string, sep: string, i: nat)
    ensures i + |sep| <= |a| ==> (OccursAt(a + b, sep, i) <==> OccursAt(a, sep, i))
  {
    if i + |sep| <= |a| {
      assert (a + b)[i..i + |sep|] == a[i..i + |sep|];
    }
  }

  // ---------- string_split ----------

  /** The pieces of s between the leftmost non-overlapping occurrences of sep. */
  function Split(s: string, sep: string): (r: seq<string>)
    requires sep != ""
    ensures r != []
    decreases |s|
  {
    match Find(s, sep, 0)
    case None => [s]
    case Some(pos) => [s[..pos]] + Split(s[pos + |sep|..], sep)
  }

  function Join(pieces: seq<string>, sep: string): string
    requires pieces != []
  {
    if |pieces| == 1 then pieces[0] else pieces[0] + sep + Join(pieces[1..], sep)
  }

  /** Searching a suffix is searching the whole from there on. */
  lemma {:induction false} FindSuffix(s: string, sep: string, k: nat, from: nat)
    requires k + from <= |s|
    ensures Find(s[k..], sep, from) == match Find(s, sep, k + from)
                                       case None => None
                                       case Some(p) => Some(p - k)
    decreases |s| - from
  {
    assert OccursAt(s[k..], sep, from) <==> OccursAt(s, sep, k + from) by {
      if k + from + |sep| <= |s| {
        assert s[k..][from..from + |sep|] == s[k + from..k + from + |sep|];
      }
    }
    if !OccursAt(s, sep, k + from) && k + from < |s| {
      FindSuffix(s, sep, k, from + 1);
    }
  }

  lemma SplitOnce(t: string, sep: string)
    requires sep != ""
    ensures Find(t, sep, 0).None? ==> Split(t, sep) == [t]
    ensures Find(t, sep, 0).Some? ==>
              var p := Find(t, sep, 0).value;
              p + |sep| <= |t| && Split(t, sep) == [t[..p]] + Split(t[p + |sep|..], sep)
  {
    hide OccursAt;
    match Find(t, sep, 0)
    case None =>
    case Some(p) => OccursWithin(t, sep, p);
  }

  lemma OccursWithin(t: string, sep: string, p: nat)
    requires OccursAt(t, sep, p)
    ensures p + |sep| <= |t|
  {
  }

  /** What is left to split after one more piece. */
  lemma SplitStep(s: string, sep: string, start: nat, t: string)
    requires sep != "" && start <= |s| && t == s[start..]
    ensures Find(s, sep, start).None? ==> Split(t, sep) == [t]
    ensures Find(s, sep, start).Some? ==>
              var pos := Find(s, sep, start).value;
              pos + |sep| <= |s| && Split(t, sep) == [s[start..pos]] + Split(s[pos + |sep|..], sep)
  {
    hide Find, Split, OccursAt;
    FindSuffix(s, sep, start, 0);
    SplitOnce(t, sep);
    var f := Find(s, sep, start);
    if f.Some? {
      var p := f.value - start;
      SlicesMove(s, t, start, p, f.value);
      SlicesMove(s, t, start, p + |sep|, f.value + |sep|);
    }
  }

  lemma SlicesMove(s: string, t: string, start: nat, i: nat, j: nat)
    requires start <= |s| && t == s[start..] && j == start + i <= |s|
    ensures t[..i] == s[start..j] && t[i..] == s[j..]
  {
  }

  /** One turn of the loop of string_split: the pieces so far, where to look next, and whether the loop has ended. */
  datatype Cutting = Cutting(result: seq<string>, start: nat, done: bool)

  function Turn(s: string, sep: string, c: Cutting): Cutting
    requires c.start <= |s|
  {
    match Find(s, sep, c.start)
    case None => Cutting(c.result + [s[c.start..]], c.start, true)
    case Some(pos) => Cutting(c.result + [s[c.start..pos]], pos + |sep|, false)
  }

  function Turns(s: string, sep: string, n: nat): (c: Cutting)
    ensures c.start <= |s|
  {
    if n == 0 then Cutting([], 0, false)
    else
      var c := Turns(s, sep, n - 1);
      if c.done then c else Turn(s, sep, c)
  }

  lemma {:induction false} TurnsMoveOn(s: string, sep: string, n: nat)
    requires sep != "" && !Turns(s, sep, n).done
    ensures Turns(s, sep, n).start >= n
  {
    hide Find;
    if n > 0 {
      TurnsMoveOn(s, sep, n - 1);
    }
  }

  /** An empty separator is found wherever the search starts. */
  lemma {:induction false} TurnsStandStill(s: string, n: nat)
    ensures !Turns(s, "", n).done && Turns(s, "", n).start == 0
  {
    if n > 0 {
      TurnsStandStill(s, n - 1);
    }
  }

  /** The loop of string_split ends exactly when the separator is not empty. */
  lemma SplitEnds(s: string, sep: string)
    ensures (exists n: nat :: Turns(s, sep, n).done) <==> sep != ""
  {
    hide Turns;
    if sep != "" {
      if !Turns(s, sep, |s| + 1).done {
        TurnsMoveOn(s, sep, |s| + 1);
      }
      assert Turns(s, sep, |s| + 1).done;
    } else {
      forall n: nat ensures !Turns(s, sep, n).done {
        TurnsStandStill(s, n);
      }
    }
  }

  /** string_split, on the separators for which the original ends. */
  method StringSplit(s: string, sep: string) returns (result: seq<string>)
    requires sep != ""
    ensures result == Split(s, sep)
    ensures exists n: nat :: Turns(s, sep, n) == Cutting(result, Turns(s, sep, n).start, true)
  {
    hide Find, Split;
    result := [];
    var start := 0;
    ghost var n: nat := 0;
    assert s[0..] == s;
    while true
      invariant 0 <= start <= |s| && result + Split(s[start..], sep) == Split(s, sep)
      invariant Turns(s, sep, n) == Cutting(result, start, false)
      decreases |s| - start
    {
      var pos := Find(s, sep, start);
      SplitStep(s, sep, start, s[start..]);
      if pos.None? {
        result := result + [s[start..]];
        assert Turns(s, sep, n + 1) == Cutting(result, start, true);
        break;
      }
      var next := pos.value + |sep|;
      ConcatAssoc(result, [s[start..pos.value]], Split(s[next..], sep));
      result := result + [s[start..pos.value]];
      start := next;
      n := n + 1;
    }
  }

  lemma {:induction false} SplitJoins(s: string, sep: string)
    requires sep != ""
    ensures Join(Split(s, sep), sep) == s
    decreases |s|
  {
    match Find(s, sep, 0)
    case None =>
    case Some(pos) =>
      var rest := s[pos + |sep|..];
      SplitJoins(rest, sep);
      assert Split(s, sep)[1..] == Split(rest, sep);
      assert s[..pos] + s[pos..pos + |sep|] + rest == s;
  }

  lemma {:induction false} PiecesFree(s: string, sep: string, i: nat)
    requires sep != "" && i < |Split(s, sep)|
    ensures !Contains(Split(s, sep)[i], sep)
    decreases |s|
  {
    hide Find, Split, OccursAt;
    SplitOnce(s, sep);
    match Find(s, sep, 0)
    case None =>
    case Some(pos) =>
      if i == 0 {
        FrontFree(s, sep, pos);
      } else {
        PiecesFree(s[pos + |sep|..], sep, i - 1);
      }
  }

  lemma FrontFree(s: string, sep: string, pos: nat)
    requires pos <= |s| && sep != "" && forall i :: 0 <= i < pos ==> !OccursAt(s, sep, i)
    ensures !Contains(s[..pos], sep)
  {
    assert s[..pos] + s[pos..] == s;
    forall j: nat ensures !OccursAt(s[..pos], sep, j) {
      OccursInFront(s[..pos], s[pos..], sep, j);
    }
  }

  /** Every piece but the last ends at the first place where the separator occurs from its start on. */
  ghost predicate Leftmost(pieces: seq<string>, sep: string)
    requires pieces != []
    decreases |pieces|
  {
    if |pieces| == 1 then !Contains(pieces[0], sep)
    else Find(Join(pieces, sep), sep, 0) == Some(|pieces[0]|) && Leftmost(pieces[1..], sep)
  }

  /** These properties determine the pieces: there is no other leftmost way to cut s. */
  lemma {:induction false} SplitUnique(pieces: seq<string>, sep: string)
    requires sep != "" && pieces != []
    ensures Leftmost(pieces, sep) <==> Split(Join(pieces, sep), sep) == pieces
    decreases |pieces|
  {
    var s := Join(pieces, sep);
    if |pieces| == 1 {
      if Split(s, sep) == pieces {
        PiecesFree(s, sep, 0);
      } else {
        assert Find(s, sep, 0).Some?;
      }
    } else {
      hide Find, Split;
      var first := pieces[0];
      SplitUnique(pieces[1..], sep);
      SplitStep(s, sep, 0, s);
      assert s[..|first|] == first && s[|first| + |sep|..] == Join(pieces[1..], sep);
      if Split(s, sep) == pieces {
        assert Find(s, sep, 0).Some?;
        assert s[..Find(s, sep, 0).value] == first;
      }
    }
  }

  // ---------- line framing ----------

  const LF := "\n"

  /** One trailing carriage return is dropped. */
  function WithoutCR(line: string): string
  {
    if line != "" && line[|line| - 1] == '\r' then line[..|line| - 1] else line
  }

  /** The complete lines of a stream, and the text after its last newline. */
  function Lines(stream: string): seq<string>
    decreases |stream|
  {
    match Find(stream, LF, 0)
    case None => []
    case Some(pos) => [WithoutCR(stream[..pos])] + Lines(stream[pos + 1..])
  }

  function Unfinished(stream: string): string
    decreases |stream|
  {
    match Find(stream, LF, 0)
    case None => stream
    case Some(pos) => Unfinished(stream[pos + 1..])
  }

  /** What is kept and what is handed on: a newline-split of the stream, put together again. */
  lemma {:induction false} LinesAreTheSplit(stream: string)
    ensures var pieces := Split(stream, LF);
            |Lines(stream)| == |pieces| - 1 && Unfinished(stream) == pieces[|pieces| - 1]
            && forall i :: 0 <= i < |Lines(stream)| ==> Lines(stream)[i] == WithoutCR(pieces[i])
    decreases |stream|
  {
    match Find(stream, LF, 0)
    case None =>
    case Some(pos) => LinesAreTheSplit(stream[pos + 1..]);
  }

  lemma {:induction false} FindInFront(a: string, b: string)
    ensures Find(a, LF, 0).Some? ==> Find(a + b, LF, 0) == Find(a, LF, 0)
  {
    match Find(a, LF, 0)
    case None =>
    case Some(pos) =>
      forall i: nat | i <= pos ensures OccursAt(a + b, LF, i) <==> OccursAt(a, LF, i) {
        OccursInFront(a, b, LF, i);
      }
      FindFirst(a + b, LF, 0, pos);
  }

  /** Framing a stream in two parts is framing it at once: the rest of the first part waits for the second. */
  lemma {:induction false} FrameInParts(a: string, b: string)
    ensures Lines(a + b) == Lines(a) + Lines(Unfinished(a) + b)
    ensures Unfinished(a + b) == Unfinished(Unfinished(a) + b)
    decreases |a|
  {
    FindInFront(a, b);
    match Find(a, LF, 0)
    case None =>
    case Some(pos) =>
      var rest := a[pos + 1..];
      assert (a + b)[pos + 1..] == rest + b && (a + b)[..pos] == a[..pos];
      FrameInParts(rest, b);
      ConcatAssoc([WithoutCR(a[..pos])], Lines(rest), Lines(Unfinished(rest) + b));
  }

  lemma NewlineAt(s: string, i: nat)
    ensures OccursAt(s, LF, i) <==> i < |s| && s[i] == '\n'
  {
    if i < |s| {
      assert s[i..i + 1] == [s[i]] && LF == ['\n'];
    }
  }

  lemma FirstNewline(line: string, rest: string)
    requires '\n' !in line
    ensures Find(line + "\n" + rest, LF, 0) == Some(|line|) && Find(line, LF, 0) == None
    ensures (line + "\n" + rest)[..|line|] == line && (line + "\n" + rest)[|line| + 1..] == rest
  {
    var s := line + "\n" + rest;
    forall i: nat | i < |line| ensures !OccursAt(s, LF, i) && !OccursAt(line, LF, i) {
      assert s[i] == line[i] && s[i] in line;
      NewlineAt(s, i);
      NewlineAt(line, i);
    }
    NewlineAt(s, |line|);
    FindFirst(s, LF, 0, |line|);
  }

  /** A line may end in a newline or in a carriage return and a newline. */
  function Ended(line: string, crlf: bool): string { line + if crlf then "\r\n" else "\n" }

  /** A line without a newline that would not be taken for one with the other end. */
  predicate Clear(line: string, crlf: bool)
  {
    '\n' !in line && (crlf || line == "" || line[|line| - 1] != '\r')
  }

  /** Whatever the line is, a carriage return at its own end included, one line end is taken off and nothing else. */
  lemma OneLineMore(line: string, crlf: bool, rest: string)
    requires Clear(line, crlf)
    ensures Lines(Ended(line, crlf) + rest) == [line] + Lines(rest)
    ensures Unfinished(Ended(line, crlf) + rest) == Unfinished(rest)
  {
    hide Find;
    var l := if crlf then line + "\r" else line;
    assert Ended(line, crlf) + rest == l + "\n" + rest;
    FirstNewline(l, rest);
    assert crlf ==> l[..|l| - 1] == line && l[|l| - 1] == '\r';
  }

  /** A text without a newline is kept. */
  lemma NoLineYet(text: string)
    requires '\n' !in text
    ensures Lines(text) == [] && Unfinished(text) == text
  {
    FirstNewline(text, "");
  }

  /** Lines as a client sends them, each with the end it chooses, and the beginning of one more. */
  function Typed(lines: seq<(string, bool)>, more: string): string
  {
    if lines == [] then more else Ended(lines[0].0, lines[0].1) + Typed(lines[1..], more)
  }

  function Texts(lines: seq<(string, bool)>): (r: seq<string>)
    ensures |r| == |lines| && forall i :: 0 <= i < |lines| ==> r[i] == lines[i].0
  {
    if lines == [] then [] else [lines[0].0] + Texts(lines[1..])
  }

  /** The server sees the lines the client sent. */
  lemma {:induction false} LinesOfTyped(lines: seq<(string, bool)>, more: string)
    requires forall i :: 0 <= i < |lines| ==> Clear(lines[i].0, lines[i].1)
    requires '\n' !in more
    ensures Lines(Typed(lines, more)) == Texts(lines) && Unfinished(Typed(lines, more)) == more
  {
    if lines == [] {
      NoLineYet(more);
    } else {
      LinesOfTyped(lines[1..], more);
      OneLineMore(lines[0].0, lines[0].1, Typed(lines[1..], more));
    }
  }

  class Connection {
    var buffer: string
    var closed: bool
    /** The lines handed to on_line so far. */
    var handed: seq<string>

    constructor ()
      ensures buffer == "" && handed == [] && !closed
    {
      buffer, handed, closed := "", [], false;
    }

    /** The callback of read_start: a read error or the end of the stream closes the connection. */
    method OnRead(chunk: Option<string>)
      modifies this
      ensures chunk.None? ==> closed && buffer == old(buffer) && handed == old(handed)
      ensures chunk.Some? ==>
                closed == old(closed)
                && handed == old(handed) + Lines(old(buffer) + chunk.value)
                && buffer == Unfinished(old(buffer) + chunk.value)
    {
      if chunk.None? {
        closed := true;
        return;
      }
      buffer := buffer + chunk.value;
      ghost var all := buffer;
      while true
        invariant closed == old(closed)
        invariant handed + Lines(buffer) == old(handed) + Lines(all) && Unfinished(buffer) == Unfinished(all)
        decreases |buffer|
      {
        var pos := Find(buffer, LF, 0);
        if pos.None? {
          break;
        }
        var line := buffer[..pos.value];
        ghost var rest := buffer[pos.value + 1..];
        ConcatAssoc(handed, [WithoutCR(line)], Lines(rest));
        buffer := buffer[pos.value + 1..];
        if line != "" && line[|line| - 1] == '\r' {
          line := line[..|line| - 1];
        }
        handed := handed + [line];
      }
    }
  }

  // ---------- any cutting of the stream ----------

  function Concat(chunks: seq<string>): string
  {
    if chunks == [] then "" else Concat(chunks[..|chunks| - 1]) + chunks[|chunks| - 1]
  }

  /** Buffer and lines after a sequence of reads, as OnRead changes them. */
  function Framed(chunks: seq<string>): (seq<string>, string)
  {
    if chunks == [] then ([], "")
    else
      var (handed, buffer) := Framed(chunks[..|chunks| - 1]);
      var all := buffer + chunks[|chunks| - 1];
      (handed + Lines(all), Unfinished(all))
  }

  /** The lines handed on and the text kept depend on the stream alone, not on how it was cut. */
  lemma {:induction false} FramingIgnoresChunks(chunks: seq<string>)
    ensures Framed(chunks) == (Lines(Concat(chunks)), Unfinished(Concat(chunks)))
  {
    if chunks != [] {
      FramingIgnoresChunks(chunks[..|chunks| - 1]);
      FrameInParts(Concat(chunks[..|chunks| - 1]), chunks[|chunks| - 1]);
    }
  }

  /** The whole life of a connection: chunk after chunk through the callback. */
  method ReadAll(chunks: seq<string>) returns (handed: seq<string>, kept: string)
    ensures handed == Lines(Concat(chunks)) && kept == Unfinished(Concat(chunks))
  {
    var c := new Connection();
    var i := 0;
    while i < |chunks|
      invariant 0 <= i <= |chunks| && (c.handed, c.buffer) == Framed(chunks[..i])
    {
      assert chunks[..i + 1][..i] == chunks[..i];
      c.OnRead(Some(chunks[i]));
      i := i + 1;
    }
    assert chunks[..i] == chunks;
    FramingIgnoresChunks(chunks);
    return c.handed, c.buffer;
  }

  /** The first read of a connection: a line with its end, and what follows. */
  method FirstRead(line: string, crlf: bool, rest: string) returns (handed: seq<string>, kept: string)
    requires Clear(line, crlf)
    ensures handed == [line] + Lines(rest) && kept == Unfinished(rest)
  {
    var c := new Connection();
    hide Lines, Unfinished, Ended;
    c.OnRead(Some(Ended(line, crlf) + rest));
    assert "" + (Ended(line, crlf) + rest) == Ended(line, crlf) + rest;
    OneLineMore(line, crlf, rest);
    handed, kept := c.handed, c.buffer;
    assert [] + handed == handed;
  }

  /** However the lines of a client are cut into chunks, they are handed on one by one and the rest is kept. */
  method ReadTyped(lines: seq<(string, bool)>, more: string, chunks: seq<string>)
    returns (handed: seq<string>, kept: string)
    requires forall i :: 0 <= i < |lines| ==> Clear(lines[i].0, lines[i].1)
    requires '\n' !in more && Concat(chunks) == Typed(lines, more)
    ensures handed == Texts(lines) && kept == more
  {
    handed, kept := ReadAll(chunks);
    LinesOfTyped(lines, more);
  }
}
