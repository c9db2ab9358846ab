/**
 * The command classifier of the chat server: one received line becomes one of
 * five commands, decided by fixed-width prefix comparisons, with names and bodies
 * cut out by `std::string::find` and `std::string::substr`. Their `size_t`
 * arithmetic, including the wrap-around of `npos + 1`, and the `out_of_range`
 * exception of `substr` are written out explicitly.
 */
module Commands {

  /** The largest `size_t` on a 64-bit platform. */
  const SIZE_MAX: nat := 0xFFFF_FFFF_FFFF_FFFF

  type SizeT = x: nat | x <= SIZE_MAX

  /** `std::string::npos`, the value `find` returns when nothing is found. */
  const NPOS: SizeT := SIZE_MAX

  /** Unsigned addition modulo 2^64. */
  function SizeAdd(a: SizeT, b: SizeT): SizeT
  {
    (a + b) % (SIZE_MAX + 1)
  }

  /** Unsigned subtraction modulo 2^64 (Dafny's `%` never yields a negative number). */
  function SizeSub(a: SizeT, b: SizeT): SizeT
  {
    (a - b) % (SIZE_MAX + 1)
  }

  /** A value, or the `std::out_of_range` that `substr` throws. */
  datatype Result<T> = Ok(value: T) | OutOfRange
  {
    predicate IsFailure() { OutOfRange? }

    function PropagateFailure<U>(): Result<U>
      requires OutOfRange?
    {
      OutOfRange
    }

    function Extract(): T
      requires Ok?
    {
      value
    }
  }

  /** `s.substr(pos, count)`: throws when `pos > size()`, otherwise at most `count` characters from `pos`. */
  function Substr(s: string, pos: SizeT, count: SizeT): (r: Result<string>)
    ensures r.Ok? <==> pos <= |s|
    ensures r.Ok? ==> |r.value| <= count && |r.value| == if count < |s| - pos then count else |s| - pos
    ensures r.Ok? ==> r.value == s[pos..pos + |r.value|]
  {
    if pos > |s| then OutOfRange
    else Ok(s[pos..if count < |s| - pos then pos + count else |s|])
  }

  /** `substr(pos)` with the default count `npos` is the whole tail from `pos`. */
  lemma SubstrTail(s: string, pos: SizeT)
    requires |s| < NPOS && pos <= |s|
    ensures Substr(s, pos, NPOS) == Ok(s[pos..])
  {
    assert Substr(s, pos, NPOS).Ok?;
    assert Substr(s, pos, NPOS).value == s[pos..];
  }

  /** `substr(pos, end - pos)` is the slice from `pos` to `end`. */
  lemma SubstrSlice(s: string, pos: SizeT, end: SizeT)
    requires pos <= end <= |s|
    ensures Substr(s, pos, end - pos) == Ok(s[pos..end])
  {
  }

  /** `s.find(c, pos)`: the first index at or after `pos` holding `c`, or `NPOS`. */
  function Find(s: string, c: char, pos: SizeT): (r: SizeT)
    requires |s| < NPOS
    decreases |s| - pos
    ensures r == NPOS <==> forall k :: pos <= k < |s| ==> s[k] != c
    ensures r != NPOS ==> pos <= r < |s| && s[r] == c && forall k :: pos <= k < r ==> s[k] != c
  {
    if pos >= |s| then NPOS
    else if s[pos] == c then pos
    else Find(s, c, pos + 1)
  }

  /** What one received line asks the server to do. */
  datatype Command =
    | Private(recipient: string, body: string)
    | Join(room: string)
    | Room(room: string, body: string)
    | Quit
    | Plain(line: string)

  /**
   * The name-and-body cut shared by `/private` (from index 9) and `/room` (from index 6):
   * `p = find(' ', start)`, name `substr(start, p - start)`, body `substr(p + 1)`.
   */
  function SplitNameBody(line: string, start: SizeT): Result<(string, string)>
    requires |line| < NPOS
  {
    var spacePos := Find(line, ' ', start);
    var name :- Substr(line, start, SizeSub(spacePos, start));
    var body :- Substr(line, SizeAdd(spacePos, 1), NPOS);
    Ok((name, body))
  }

  /** The classification chain of the session loop: the first matching test wins. */
  function Classify(line: string): Result<Command>
    requires |line| < NPOS
  {
    if Substr(line, 0, 8) == Ok("/private") then
      var split :- SplitNameBody(line, 9);
      Ok(Private(split.0, split.1))
    else if Substr(line, 0, 5) == Ok("/join") then
      var room :- Substr(line, 6, NPOS);
      Ok(Join(room))
    else if Substr(line, 0, 5) == Ok("/room") then
      var split :- SplitNameBody(line, 6);
      Ok(Room(split.0, split.1))
    else if line == "/quit" then
      Ok(Quit)
    else
      Ok(Plain(line))
  }

  /** Past the end of the line, `substr(start, ...)` throws. */
  lemma SplitPastEnd(line: string, start: SizeT)
    requires |line| < NPOS && start > |line|
    ensures SplitNameBody(line, start) == OutOfRange
  {
  }

  /** A space at `k`, the first at or after `start`: the name runs up to it and the body follows it. */
  lemma SplitWithSpace(line: string, start: SizeT, k: nat)
    requires |line| < NPOS && start <= k < |line| && line[k] == ' '
    requires forall j :: start <= j < k ==> line[j] != ' '
    ensures SplitNameBody(line, start) == Ok((line[start..k], line[k + 1..]))
  {
    assert Find(line, ' ', start) == k;
    assert SizeSub(k, start) == k - start;
    SubstrSlice(line, start, k);
    assert SizeAdd(k, 1) == k + 1;
    SubstrTail(line, k + 1);
  }

  /** No space at or after `start`: the name is the rest of the line and, as `npos + 1` wraps to 0, the body is the whole line. */
  lemma SplitNoSpace(line: string, start: SizeT)
    requires |line| < NPOS && start <= |line|
    requires forall j :: start <= j < |line| ==> line[j] != ' '
    ensures SplitNameBody(line, start) == Ok((line[start..], line))
  {
    assert Find(line, ' ', start) == NPOS;
    assert SizeSub(NPOS, start) == NPOS - start;
    assert Substr(line, start, NPOS - start) == Ok(line[start..]) by {
      assert Substr(line, start, NPOS - start).Ok?;
      assert Substr(line, start, NPOS - start).value == line[start..];
    }
    assert SizeAdd(NPOS, 1) == 0;
    SubstrTail(line, 0);
  }

  /** Inside the line the cut never throws. */
  lemma SplitInside(line: string, start: SizeT)
    requires |line| < NPOS && start <= |line|
    ensures SplitNameBody(line, start).Ok?
  {
  }

  /** The line starts with the 8 characters `/private`. */
  predicate HasPrivatePrefix(line: string)
  {
    |line| >= 8 && line[..8] == "/private"
  }

  /** The line starts with the 5 characters `/join`. */
  predicate HasJoinPrefix(line: string)
  {
    |line| >= 5 && line[..5] == "/join"
  }

  /** The line starts with the 5 characters `/room`. */
  predicate HasRoomPrefix(line: string)
  {
    |line| >= 5 && line[..5] == "/room"
  }

  /** No keyword test matches, so the line is chat text for everybody. */
  predicate IsPlainLine(line: string)
  {
    !HasPrivatePrefix(line) && !HasJoinPrefix(line) && !HasRoomPrefix(line) && line != "/quit"
  }

  /** The prefix tests written with `substr(0, n)` are the predicates above, and no two keywords share a prefix. */
  lemma PrefixTests(line: string)
    ensures Substr(line, 0, 8) == Ok("/private") <==> HasPrivatePrefix(line)
    ensures Substr(line, 0, 5) == Ok("/join") <==> HasJoinPrefix(line)
    ensures Substr(line, 0, 5) == Ok("/room") <==> HasRoomPrefix(line)
    ensures HasPrivatePrefix(line) ==> !HasJoinPrefix(line) && !HasRoomPrefix(line) && line != "/quit"
    ensures HasJoinPrefix(line) ==> !HasRoomPrefix(line) && line != "/quit"
    ensures HasRoomPrefix(line) ==> line != "/quit"
  {
    if HasPrivatePrefix(line) {
      assert line[1] == line[..8][1] == 'p';
    }
    if HasJoinPrefix(line) {
      assert line[1] == line[..5][1] == 'j';
    }
    if HasRoomPrefix(line) {
      assert line[1] == line[..5][1] == 'r';
    }
  }

  /** Precedence: which kind of command a line becomes, and when `substr` throws. */
  lemma ClassifyKinds(line: string)
    requires |line| < NPOS
    ensures Classify(line).OutOfRange? <==> line == "/private" || line == "/join" || line == "/room"
    ensures (Classify(line).Ok? && Classify(line).value.Private?) <==> HasPrivatePrefix(line) && |line| >= 9
    ensures (Classify(line).Ok? && Classify(line).value.Join?) <==> HasJoinPrefix(line) && |line| >= 6
    ensures (Classify(line).Ok? && Classify(line).value.Room?) <==> HasRoomPrefix(line) && |line| >= 6
    ensures Classify(line) == Ok(Quit) <==> line == "/quit"
    ensures Classify(line) == Ok(Plain(line)) <==> IsPlainLine(line)
  {
    PrefixTests(line);
    if HasPrivatePrefix(line) {
      if |line| == 8 {
        assert line == line[..8];
        SplitPastEnd(line, 9);
      } else {
        SplitInside(line, 9);
      }
    } else if HasJoinPrefix(line) {
      if |line| == 5 {
        assert line == line[..5];
      }
    } else if HasRoomPrefix(line) {
      if |line| == 5 {
        assert line == line[..5];
        SplitPastEnd(line, 6);
      } else {
        SplitInside(line, 6);
      }
    }
  }

  /** `/private`: the recipient runs from index 9 to the first space at or after 9; the body follows that space. */
  lemma ClassifyPrivateWithSpace(line: string, k: nat)
    requires |line| < NPOS && HasPrivatePrefix(line)
    requires 9 <= k < |line| && line[k] == ' '
    requires forall j :: 9 <= j < k ==> line[j] != ' '
    ensures Classify(line) == Ok(Private(line[9..k], line[k + 1..]))
  {
    PrefixTests(line);
    SplitWithSpace(line, 9, k);
  }

  /** `/private` with no space after index 9: the recipient is the rest of the line and the body is the whole line. */
  lemma ClassifyPrivateNoSpace(line: string)
    requires |line| < NPOS && HasPrivatePrefix(line) && |line| >= 9
    requires forall j :: 9 <= j < |line| ==> line[j] != ' '
    ensures Classify(line) == Ok(Private(line[9..], line))
  {
    PrefixTests(line);
    SplitNoSpace(line, 9);
  }

  /** `/join`: the room is everything from index 6, whatever character index 5 holds. */
  lemma ClassifyJoin(line: string)
    requires |line| < NPOS && HasJoinPrefix(line) && |line| >= 6
    ensures Classify(line) == Ok(Join(line[6..]))
  {
    PrefixTests(line);
    SubstrTail(line, 6);
  }

  /** `/room`: the room runs from index 6 to the first space at or after 6; the body follows that space. */
  lemma ClassifyRoomWithSpace(line: string, k: nat)
    requires |line| < NPOS && HasRoomPrefix(line)
    requires 6 <= k < |line| && line[k] == ' '
    requires forall j :: 6 <= j < k ==> line[j] != ' '
    ensures Classify(line) == Ok(Room(line[6..k], line[k + 1..]))
  {
    PrefixTests(line);
    SplitWithSpace(line, 6, k);
  }

  /** `/room` with no space after index 6: the room is the rest of the line and the body is the whole line. */
  lemma ClassifyRoomNoSpace(line: string)
    requires |line| < NPOS && HasRoomPrefix(line) && |line| >= 6
    requires forall j :: 6 <= j < |line| ==> line[j] != ' '
    ensures Classify(line) == Ok(Room(line[6..], line))
  {
    PrefixTests(line);
    SplitNoSpace(line, 6);
  }

  /** The line a client types to issue a command, in the documented grammar. */
  function Render(cmd: Command): string
  {
    match cmd
    case Private(recipient, body) => "/private " + recipient + " " + body
    case Join(room) => "/join " + room
    case Room(room, body) => "/room " + room + " " + body
    case Quit => "/quit"
    case Plain(line) => line
  }

  /** Commands the grammar can express: names hold no space, and chat text is not mistaken for a keyword. */
  predicate WellFormed(cmd: Command)
  {
    match cmd
    case Private(recipient, _) => ' ' !in recipient
    case Join(_) => true
    case Room(room, _) => ' ' !in room
    case Quit => true
    case Plain(line) => IsPlainLine(line)
  }

  /** Classifying the rendered line of a well-formed command gives that command back. */
  lemma ClassifyRender(cmd: Command)
    requires WellFormed(cmd) && |Render(cmd)| < NPOS
    ensures Classify(Render(cmd)) == Ok(cmd)
  {
    var line := Render(cmd);
    match cmd
    case Private(recipient, body) =>
      var k := 9 + |recipient|;
      assert line[..8] == "/private";
      assert line[9..k] == recipient;
      assert line[k + 1..] == body;
      forall j | 9 <= j < k
        ensures line[j] != ' '
      {
        assert line[j] == recipient[j - 9];
      }
      ClassifyPrivateWithSpace(line, k);
    case Join(room) =>
      assert line[..5] == "/join";
      assert line[6..] == room;
      ClassifyJoin(line);
    case Room(room, body) =>
      var k := 6 + |room|;
      assert line[..5] == "/room";
      assert line[6..k] == room;
      assert line[k + 1..] == body;
      forall j | 6 <= j < k
        ensures line[j] != ' '
      {
        assert line[j] == room[j - 6];
      }
      ClassifyRoomWithSpace(line, k);
    case Quit =>
      ClassifyKinds(line);
    case Plain(_) =>
      ClassifyKinds(line);
  }
}
