/** Target lines, the spool they are written to, and its replay. */
module Targets {
  import opened Wrappers

  predicate IsSpace(c: char) {
    || '\t' <= c <= '\r' || c == ' '
    || c == '\U{85}' || c == '\U{A0}' || c == '\U{1680}'
    || '\U{2000}' <= c <= '\U{200A}'
    || c == '\U{2028}' || c == '\U{2029}' || c == '\U{202F}' || c == '\U{205F}' || c == '\U{3000}'
  }

  function TrimLeft(s: string): string {
    if s != [] && IsSpace(s[0]) then TrimLeft(s[1..]) else s
  }

  function TrimRight(s: string): string {
    if s != [] && IsSpace(s[|s| - 1]) then TrimRight(s[..|s| - 1]) else s
  }

  function TrimSpace(s: string): string {
    TrimRight(TrimLeft(s))
  }

  /** Nothing to trim at either end. */
  predicate Tight(s: string) {
    s != [] ==> !IsSpace(s[0]) && !IsSpace(s[|s| - 1])
  }

  function ParseTargetLine(line: string): Option<string> {
    var target := TrimSpace(line);
    if target == "" || target[0] == '#' then None else Some(target)
  }

  function DropCR(line: string): string {
    if line != [] && line[|line| - 1] == '\r' then line[..|line| - 1] else line
  }

  function IndexOfNewline(text: string): (i: nat)
    ensures i <= |text| && '\n' !in text[..i] && (i < |text| ==> text[i] == '\n')
  {
    if text == [] || text[0] == '\n' then 0 else
      var i := 1 + IndexOfNewline(text[1..]);
      assert text[..i] == [text[0]] + text[1..][..i - 1];
      i
  }

  /** The lines `bufio.Scanner` yields. */
  function ScanLines(text: string): seq<string>
    decreases |text|
  {
    if text == [] then [] else
      var i := IndexOfNewline(text);
      [DropCR(text[..i])] + (if i < |text| then ScanLines(text[i + 1..]) else [])
  }

  function KeptLine(line: string): seq<string> {
    var target := ParseTargetLine(line);
    if target.Some? then [target.value] else []
  }

  function Kept(lines: seq<string>): seq<string> {
    if lines == [] then [] else KeptLine(lines[0]) + Kept(lines[1..])
  }

  function Spool(targets: seq<string>): string {
    if targets == [] then [] else targets[0] + "\n" + Spool(targets[1..])
  }

  lemma {:induction false} TrimLeftIsSuffix(s: string) returns (k: nat)
    ensures k <= |s| && TrimLeft(s) == s[k..] && (TrimLeft(s) != [] ==> !IsSpace(TrimLeft(s)[0]))
  {
    if s != [] && IsSpace(s[0]) {
      k := TrimLeftIsSuffix(s[1..]);
      k := k + 1;
    } else {
      k := 0;
    }
  }

  lemma {:induction false} TrimRightIsPrefix(s: string) returns (k: nat)
    ensures k <= |s| && TrimRight(s) == s[..k] && (k > 0 ==> !IsSpace(s[k - 1]))
  {
    if s != [] && IsSpace(s[|s| - 1]) {
      k := TrimRightIsPrefix(s[..|s| - 1]);
      assert s[..|s| - 1][..k] == s[..k];
    } else {
      k := |s|;
    }
  }

  /** Trimming yields a tight slice of its input, and leaves tight strings alone. */
  lemma TrimSpaceIsTight(s: string)
    ensures Tight(TrimSpace(s))
    ensures forall c | c in TrimSpace(s) :: c in s
    ensures Tight(s) ==> TrimSpace(s) == s
  {
    var i := TrimLeftIsSuffix(s);
    var j := TrimRightIsPrefix(TrimLeft(s));
  }

  /** The white space among the ASCII characters. */
  lemma ASCIISpace(c: char)
    requires c < 128 as char
    ensures IsSpace(c) <==> c in " \t\n\r\U{B}\U{C}"
  {
    var spaces := " \t\n\r\U{B}\U{C}";
    assert spaces[0] == ' ' && spaces[1] == '\t' && spaces[2] == '\n' && spaces[3] == '\r';
    assert spaces[4] == '\U{B}' && spaces[5] == '\U{C}';
  }

  predicate AllSpace(s: string) {
    forall c | c in s :: IsSpace(c)
  }

  lemma {:induction false} TrimLeftDropsSpace(s: string) returns (k: nat)
    ensures k <= |s| && TrimLeft(s) == s[k..] && AllSpace(s[..k])
  {
    if s != [] && IsSpace(s[0]) {
      k := TrimLeftDropsSpace(s[1..]);
      k := k + 1;
      assert s[..k] == [s[0]] + s[1..][..k - 1];
    } else {
      k := 0;
    }
  }

  lemma {:induction false} TrimRightDropsSpace(s: string) returns (k: nat)
    ensures k <= |s| && TrimRight(s) == s[..k] && AllSpace(s[k..])
  {
    if s != [] && IsSpace(s[|s| - 1]) {
      var front := s[..|s| - 1];
      k := TrimRightDropsSpace(front);
      assert front[..k] == s[..k] && s[k..] == front[k..] + [s[|s| - 1]];
    } else {
      k := |s|;
    }
  }

  /** What is trimmed off is white space only, at either end. */
  lemma TrimmedEndsAreSpace(s: string) returns (left: string, right: string)
    ensures s == left + TrimSpace(s) + right && AllSpace(left) && AllSpace(right)
  {
    var i := TrimLeftDropsSpace(s);
    var j := TrimRightDropsSpace(s[i..]);
    left, right := s[..i], s[i..][j..];
  }

  /** Which lines hold a target, and which: what stands between the outer white space, unless that is
      nothing or begins with a number sign. */
  lemma ParsedTarget(line: string, left: string, target: string, right: string)
    requires line == left + target + right && AllSpace(left) && AllSpace(right) && Tight(target)
    ensures ParseTargetLine(line) == if target == "" || target[0] == '#' then None else Some(target)
  {
    TrimOfPadded(left, target, right);
  }

  lemma {:induction false} TrimLeftOfPadded(left: string, rest: string)
    requires AllSpace(left)
    ensures TrimLeft(left + rest) == TrimLeft(rest)
  {
    if left == [] {
      assert left + rest == rest;
    } else {
      assert left[0] in left;
      assert (left + rest)[1..] == left[1..] + rest;
      TrimLeftOfPadded(left[1..], rest);
    }
  }

  lemma {:induction false} TrimRightOfPadded(rest: string, right: string)
    requires AllSpace(right)
    ensures TrimRight(rest + right) == TrimRight(rest)
  {
    if right == [] {
      assert rest + right == rest;
    } else {
      var n := |right| - 1;
      assert right[n] in right;
      assert (rest + right)[..|rest| + n] == rest + right[..n];
      TrimRightOfPadded(rest, right[..n]);
    }
  }

  lemma TrimOfPadded(left: string, target: string, right: string)
    requires AllSpace(left) && AllSpace(right) && Tight(target)
    ensures TrimSpace(left + target + right) == target
  {
    assert left + target + right == left + (target + right);
    TrimLeftOfPadded(left, target + right);
    if target == "" {
      assert target + right == right;
      AllSpaceVanishes(right);
    } else {
      TrimRightOfPadded(target, right);
    }
  }

  lemma {:induction false} AllSpaceVanishes(s: string)
    requires AllSpace(s)
    ensures TrimLeft(s) == ""
  {
    if s != [] {
      assert s[0] in s;
      AllSpaceVanishes(s[1..]);
    }
  }

  // ---------------------------------------------------------------- what the lines of a text are

  /** `lines` are `raw` without one carriage return at the end, where there is one. */
  predicate WithoutReturns(lines: seq<string>, raw: seq<string>) {
    && |lines| == |raw|
    && forall i | 0 <= i < |lines| ::
         if raw[i] != "" && raw[i][|raw[i]| - 1] == '\r' then lines[i] + "\r" == raw[i] else lines[i] == raw[i]
  }

  /** `raw` are the pieces of the text between its newlines; a last piece without a newline counts unless it is empty. */
  predicate PiecesOf(text: string, raw: seq<string>) {
    && (forall piece | piece in raw :: '\n' !in piece)
    && (Spool(raw) == text || (raw != [] && raw[|raw| - 1] != "" && Spool(raw) == text + "\n"))
  }

  lemma FirstPiece(piece: string, tail: string, raw: seq<string>)
    requires '\n' !in piece && PiecesOf(tail, raw)
    ensures PiecesOf(piece + "\n" + tail, [piece] + raw)
  {
    var all := [piece] + raw;
    assert all[1..] == raw;
    assert Spool(all) == piece + "\n" + Spool(raw);
    assert piece + "\n" + (tail + "\n") == (piece + "\n" + tail) + "\n";
  }

  lemma OnlyPiece(piece: string)
    requires '\n' !in piece && piece != ""
    ensures PiecesOf(piece, [piece])
  {
    assert [piece][1..] == [];
    assert Spool([piece]) == piece + "\n" + Spool([]);
  }

  lemma FirstReturn(piece: string, lines: seq<string>, raw: seq<string>)
    requires WithoutReturns(lines, raw)
    ensures WithoutReturns([DropCR(piece)] + lines, [piece] + raw)
  {
    if piece != "" && piece[|piece| - 1] == '\r' {
      assert piece == piece[..|piece| - 1] + "\r";
    }
  }

  /** The scanned lines are the pieces of the text, up to one carriage return each. */
  lemma {:induction false} LinesAreThePieces(text: string) returns (raw: seq<string>)
    ensures PiecesOf(text, raw) && WithoutReturns(ScanLines(text), raw)
    decreases |text|
  {
    if text == [] {
      raw := [];
    } else {
      var i := IndexOfNewline(text);
      var piece := text[..i];
      if i < |text| {
        var rest := LinesAreThePieces(text[i + 1..]);
        assert text == piece + "\n" + text[i + 1..];
        FirstPiece(piece, text[i + 1..], rest);
        FirstReturn(piece, ScanLines(text[i + 1..]), rest);
        raw := [piece] + rest;
      } else {
        assert piece == text;
        OnlyPiece(text);
        FirstReturn(text, [], []);
        raw := [text];
      }
    }
  }

  /** What every kept target looks like: one line of its own, which parses to itself. */
  predicate CleanTarget(target: string) {
    target != "" && Tight(target) && target[0] != '#' && '\n' !in target
  }

  lemma {:induction false} ScannedLinesHaveNoNewline(text: string)
    ensures forall line | line in ScanLines(text) :: '\n' !in line
    decreases |text|
  {
    if text != [] {
      var i := IndexOfNewline(text);
      if i < |text| {
        ScannedLinesHaveNoNewline(text[i + 1..]);
      }
    }
  }

  lemma {:induction false} KeptTargetsAreClean(lines: seq<string>)
    requires forall line | line in lines :: '\n' !in line
    ensures forall target | target in Kept(lines) :: CleanTarget(target)
  {
    if lines != [] {
      assert lines[0] in lines;
      TrimSpaceIsTight(lines[0]);
      assert forall line | line in lines[1..] :: line in lines;
      KeptTargetsAreClean(lines[1..]);
    }
  }

  lemma {:induction false} NewlineAt(line: string, rest: string)
    requires '\n' !in line
    ensures IndexOfNewline(line + "\n" + rest) == |line|
  {
    var text := line + "\n" + rest;
    if line != [] {
      assert text[1..] == line[1..] + "\n" + rest;
      assert text[0] == line[0];
      NewlineAt(line[1..], rest);
    }
  }

  lemma LineOfSpool(t: string, rest: string)
    requires CleanTarget(t)
    ensures ScanLines(t + "\n" + rest) == [t] + ScanLines(rest)
  {
    var text := t + "\n" + rest;
    NewlineAt(t, rest);
    assert text[..|t|] == t && text[|t| + 1..] == rest;
    assert DropCR(t) == t;
  }

  lemma {:induction false} SpoolLines(targets: seq<string>)
    requires forall target | target in targets :: CleanTarget(target)
    ensures ScanLines(Spool(targets)) == targets
  {
    if targets != [] {
      assert targets == [targets[0]] + targets[1..];
      SpoolLines(targets[1..]);
      LineOfSpool(targets[0], Spool(targets[1..]));
    }
  }

  lemma {:induction false} CleanTargetsAreKept(targets: seq<string>)
    requires forall target | target in targets :: CleanTarget(target)
    ensures Kept(targets) == targets
  {
    if targets != [] {
      assert targets == [targets[0]] + targets[1..];
      assert targets[0] in targets;
      CleanTargetsAreKept(targets[1..]);
      TrimSpaceIsTight(targets[0]);
      assert ParseTargetLine(targets[0]) == Some(targets[0]);
    }
  }

  /** Replay: splitting the spool back into lines and applying the line rule again gives exactly the target
      list the scope ID was computed from, for every input text. */
  lemma SpoolReplaysTargets(text: string)
    ensures var targets := Kept(ScanLines(text));
      ScanLines(Spool(targets)) == targets && Kept(ScanLines(Spool(targets))) == targets
  {
    ScannedLinesHaveNoNewline(text);
    KeptTargetsAreClean(ScanLines(text));
    SpoolLines(Kept(ScanLines(text)));
    CleanTargetsAreKept(Kept(ScanLines(text)));
  }

  lemma {:induction false} KeptConcat(a: seq<string>, b: seq<string>)
    ensures Kept(a + b) == Kept(a) + Kept(b)
  {
    if a == [] {
      assert a + b == b;
    } else {
      var ab, rest := a + b, a[1..];
      assert ab[0] == a[0] && ab[1..] == rest + b;
      KeptConcat(rest, b);
      assert KeptLine(a[0]) + (Kept(rest) + Kept(b)) == (KeptLine(a[0]) + Kept(rest)) + Kept(b);
    }
  }

  lemma {:induction false} SpoolConcat(a: seq<string>, b: seq<string>)
    ensures Spool(a + b) == Spool(a) + Spool(b)
  {
    if a == [] {
      assert a + b == b;
    } else {
      assert (a + b)[0] == a[0] && (a + b)[1..] == a[1..] + b;
      SpoolConcat(a[1..], b);
    }
  }

  lemma KeptStep(lines: seq<string>, i: nat)
    requires i < |lines|
    ensures Kept(lines[..i + 1])
         == Kept(lines[..i]) + (var t := ParseTargetLine(lines[i]); if t.Some? then [t.value] else [])
  {
    assert lines[..i + 1] == lines[..i] + [lines[i]];
    KeptConcat(lines[..i], [lines[i]]);
  }

  lemma SpoolStep(targets: seq<string>, t: string)
    ensures Spool(targets + [t]) == Spool(targets) + (t + "\n")
  {
    SpoolConcat(targets, [t]);
    assert [t][1..] == [] && Spool([t]) == t + "\n" + Spool([]);
  }

  /** What line `i` adds to the targets and to the spool. */
  lemma LineStep(lines: seq<string>, i: nat)
    requires i < |lines|
    ensures var before, after, t := Kept(lines[..i]), Kept(lines[..i + 1]), ParseTargetLine(lines[i]);
      && after == (if t.Some? then before + [t.value] else before)
      && Spool(after) == (if t.Some? then Spool(before) + (t.value + "\n") else Spool(before))
  {
    KeptStep(lines, i);
    if ParseTargetLine(lines[i]).Some? {
      SpoolStep(Kept(lines[..i]), ParseTargetLine(lines[i]).value);
    }
  }

  /** The spooled target source. `Close` acts once; later calls answer what the first one did. */
  class PreparedTargetSource {
    var spool: string
    var targets: seq<string>
    var closed: bool
    var closeErr: Error
    /** How often the spool file was closed and removed. */
    var releases: nat

    ghost predicate Valid() reads this {
      releases == if closed then 1 else 0
    }

    /** The targets of `lines`, and their spool. */
    ghost predicate Holds(lines: seq<string>) reads this {
      targets == Kept(lines) && spool == Spool(Kept(lines))
    }

    constructor ()
      ensures Valid() && !closed && spool == "" && targets == []
    {
      spool, targets, closed, closeErr, releases := "", [], false, Nil, 0;
    }

    method Close(failure: Error) returns (err: Error)
      requires Valid()
      modifies this
      ensures Valid() && closed && releases == 1
      ensures spool == old(spool) && targets == old(targets)
      ensures err == closeErr == if old(closed) then old(closeErr) else failure
    {
      if !closed {
        closed, closeErr, releases := true, failure, releases + 1;
      }
      err := closeErr;
    }
  }

  /** Write line `i` to the spool, if it is a target, and note the target. */
  method KeepLine(prepared: PreparedTargetSource, lines: seq<string>, i: nat)
    requires i < |lines| && prepared.Valid() && !prepared.closed && prepared.Holds(lines[..i])
    modifies prepared
    ensures prepared.Valid() && !prepared.closed && prepared.Holds(lines[..i + 1])
  {
    LineStep(lines, i);
    var target := ParseTargetLine(lines[i]);
    if target.Some? {
      prepared.spool := prepared.spool + (target.value + "\n");
      prepared.targets := prepared.targets + [target.value];
    }
  }

  /** Keep the lines one after the other, up to the first at which something goes wrong. */
  method ReadLines(source: PreparedTargetSource, lines: seq<string>, lineErr: nat -> Error) returns (err: Error)
    requires source.Valid() && !source.closed && source.Holds([])
    modifies source
    ensures source.Valid() && !source.closed
    ensures err == Nil <==> forall i: nat | i < |lines| :: lineErr(i) == Nil
    ensures err == Nil ==> source.Holds(lines)
  {
    assert lines[..0] == [];
    for i := 0 to |lines|
      invariant source.Valid() && !source.closed && source.Holds(lines[..i])
      invariant forall j: nat | j < i :: lineErr(j) == Nil
    {
      if lineErr(i) != Nil {
        return lineErr(i);
      }
      KeepLine(source, lines, i);
    }
    assert lines[..|lines|] == lines;
    err := Nil;
  }

  /** Read the source once, writing every kept target to the spool. `startErr` is what stops it before there is a
      spool (cancellation, or a failed creation), `lineErr(i)` what goes wrong at line `i` (cancellation or a failed
      write), `endErr` what goes wrong afterwards, `spoolCloseErr` and `sourceCloseErr` what closing adds.
      A failure returns no source, but any spool that was created has been released. */
  method PrepareTargetSource(
      text: string, startErr: Error, lineErr: nat -> Error, endErr: Error, spoolCloseErr: Error, sourceCloseErr: Error)
    returns (prepared: PreparedTargetSource?, err: Error, ghost created: PreparedTargetSource?)
    ensures err == Nil <==> startErr == Nil && endErr == Nil && forall i: nat | i < |ScanLines(text)| :: lineErr(i) == Nil
    ensures created == null <==> startErr != Nil
    ensures created != null ==> fresh(created) && created.Valid() && (created.closed <==> err != Nil)
    ensures prepared == if err == Nil then created else null
    ensures err == Nil ==> prepared.targets == Kept(ScanLines(text))
    ensures err == Nil ==> prepared.spool == Spool(prepared.targets) && ScanLines(prepared.spool) == prepared.targets
  {
    if startErr != Nil {
      return null, startErr + sourceCloseErr, null;
    }
    var source := new PreparedTargetSource();
    created := source;
    var lines := ScanLines(text);
    err := ReadLines(source, lines, lineErr);
    if err != Nil {
      var closeErr := source.Close(spoolCloseErr);
      return null, err + sourceCloseErr + closeErr, created;
    }
    if endErr != Nil {
      var closeErr := source.Close(spoolCloseErr);
      return null, endErr + closeErr, created;
    }
    SpoolReplaysTargets(text);
    prepared := source;
  }
}
