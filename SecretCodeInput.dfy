/** The secret-code entry step of the check-in page
    (src/app/checkin/components/SecretCodeInput.tsx): the keystroke formatter,
    the submit-button rule and the decision taken on the check-in reply. */
module SecretCodeInput {
  import opened JsValues

  /** `slice(0, 11)`: the longest formatted code, "XXX-XXX-XXX". */
  const MaxLength := 11
  /** Characters per group. */
  const GroupSize := 3
  /** Group separator used by `join('-')`. */
  const Dash: char := '-'
  /** Alphanumerics kept by a complete code: three full groups. */
  const CodeChars := 9

  function Min(a: nat, b: nat): nat {
    if a <= b then a else b
  }

  /** The characters kept by `replace(/[^A-Z0-9]/g, '')`. */
  predicate IsCodeChar(c: char) {
    ('A' <= c <= 'Z') || ('0' <= c <= '9')
  }

  /** `toUpperCase` on one character, for the ASCII range. */
  function ToUpper(c: char): (u: char)
    ensures 'a' <= c <= 'z' ==> 'A' <= u <= 'Z' && u as int == c as int - 32
    ensures !('a' <= c <= 'z') ==> u == c
  {
    if 'a' <= c <= 'z' then (c as int - 32) as char else c
  }

  /** `value.toUpperCase().replace(/[^A-Z0-9]/g, '')`. */
  function Clean(value: string): (r: string)
    ensures |r| <= |value|
    ensures forall i :: 0 <= i < |r| ==> IsCodeChar(r[i])
  {
    if value == [] then []
    else (if IsCodeChar(ToUpper(value[0])) then [ToUpper(value[0])] else []) + Clean(value[1..])
  }

  /** The parts laid end to end. */
  function Concat(parts: seq<string>): string {
    if parts == [] then [] else parts[0] + Concat(parts[1..])
  }

  /** The parts pushed by the loop: consecutive slices of three, the last one possibly
      shorter. Laid end to end they give back the input. */
  function Chunks(s: string): (r: seq<string>)
    ensures Concat(r) == s
    decreases |s|
  {
    if s == [] then []
    else if |s| <= GroupSize then [s]
    else
      var rest := Chunks(s[GroupSize..]);
      assert ([s[..GroupSize]] + rest)[1..] == rest;
      [s[..GroupSize]] + rest
  }

  /** Every part is non-empty and at most a group long, and every part but the last is a full group. */
  lemma {:induction false} ChunkSizes(s: string)
    ensures forall i :: 0 <= i < |Chunks(s)| ==> 0 < |Chunks(s)[i]| <= GroupSize
    ensures forall i :: 0 <= i < |Chunks(s)| - 1 ==> |Chunks(s)[i]| == GroupSize
    decreases |s|
  {
    if |s| > GroupSize {
      var rest := Chunks(s[GroupSize..]);
      ChunkSizes(s[GroupSize..]);
      assert Chunks(s) == [s[..GroupSize]] + rest;
      assert forall i :: 1 <= i < |Chunks(s)| ==> Chunks(s)[i] == rest[i - 1];
    }
  }

  /** `Array.prototype.join(sep)`: one separator between each two parts. */
  function Join(parts: seq<string>, sep: char): (r: string)
    ensures parts == [] ==> r == []
    ensures parts != [] ==> |r| == |Concat(parts)| + |parts| - 1
  {
    if parts == [] then []
    else if |parts| == 1 then parts[0]
    else parts[0] + [sep] + Join(parts[1..], sep)
  }

  /** What `formatSecretCode(value)` returns. */
  function Format(value: string): (code: string)
    ensures |code| <= MaxLength
  {
    var joined := Join(Chunks(Clean(value)), Dash);
    joined[..Min(MaxLength, |joined|)]
  }

  /** `s.slice(i)` with an index past the end giving the empty string. */
  function Drop(s: string, i: nat): string {
    if i >= |s| then [] else s[i..]
  }

  /** One turn of the loop: the slice taken at `i` is the first chunk of what is left. */
  lemma ChunksOfDrop(s: string, i: nat)
    requires i < |s|
    ensures Chunks(Drop(s, i)) == [s[i..Min(i + GroupSize, |s|)]] + Chunks(Drop(s, i + GroupSize))
  {
    var tail := s[i..];
    assert Drop(s, i) == tail;
    if |tail| <= GroupSize {
      assert s[i..Min(i + GroupSize, |s|)] == tail;
      assert Drop(s, i + GroupSize) == [];
    } else {
      assert s[i..Min(i + GroupSize, |s|)] == tail[..GroupSize];
      assert tail[GroupSize..] == Drop(s, i + GroupSize);
    }
  }

  lemma PartsAssoc(parts: seq<string>, piece: string, rest: seq<string>)
    ensures parts + [piece] + rest == parts + ([piece] + rest)
  {
  }

  /** `formatSecretCode` as written: a loop stepping by three that collects slices,
      then a join and a truncation. */
  method FormatSecretCode(value: string) returns (code: string)
    ensures code == Format(value)
    ensures |code| <= MaxLength
  {
    var cleaned := Clean(value);
    var parts: seq<string> := [];
    var i: nat := 0;
    while i < |cleaned|
      invariant parts + Chunks(Drop(cleaned, i)) == Chunks(cleaned)
    {
      var piece := cleaned[i..Min(i + GroupSize, |cleaned|)];
      ChunksOfDrop(cleaned, i);
      PartsAssoc(parts, piece, Chunks(Drop(cleaned, i + GroupSize)));
      parts := parts + [piece];
      i := i + GroupSize;
    }
    assert Drop(cleaned, i) == [];
    assert parts == Chunks(cleaned);
    var joined := Join(parts, Dash);
    code := joined[..Min(MaxLength, |joined|)];
  }

  // ---------------------------------------------------------------------------
  // A closed form of the formatter, and what follows from it.
  // ---------------------------------------------------------------------------

  /** Reference layout of a cleaned code: up to three groups of three, dashes at 3 and 7,
      everything after the ninth character dropped. */
  function Layout(c: string): string {
    if |c| <= 3 then c
    else if |c| <= 6 then c[..3] + [Dash] + c[3..]
    else if |c| <= 9 then c[..3] + [Dash] + c[3..6] + [Dash] + c[6..]
    else c[..3] + [Dash] + c[3..6] + [Dash] + c[6..9]
  }

  /** The string holds only letters and digits. */
  predicate IsCode(s: string) {
    forall i :: 0 <= i < |s| ==> IsCodeChar(s[i])
  }

  /** Groups of three joined by dashes, as one recursion. */
  function Grouped(c: string): string
    decreases |c|
  {
    if |c| <= GroupSize then c else c[..GroupSize] + [Dash] + Grouped(c[GroupSize..])
  }

  /** Joining the chunks is the single recursion `Grouped`. */
  lemma {:induction false} JoinChunksIsGrouped(c: string)
    ensures Join(Chunks(c), Dash) == Grouped(c)
    decreases |c|
  {
    if |c| > GroupSize {
      var rest := Chunks(c[GroupSize..]);
      assert Chunks(c) == [c[..GroupSize]] + rest;
      assert rest != [];
      assert ([c[..GroupSize]] + rest)[1..] == rest;
      JoinChunksIsGrouped(c[GroupSize..]);
    }
  }

  /** One step of `Grouped` on a string longer than a group. */
  lemma GroupedStep(c: string)
    requires |c| > GroupSize
    ensures Grouped(c) == c[..3] + [Dash] + Grouped(c[3..])
  {
  }

  lemma SliceOfSlice(c: string, i: nat, j: nat)
    requires i + j <= |c|
    ensures c[i..][..j] == c[i..i + j] && c[i..][j..] == c[i + j..]
  {
  }

  lemma AppendGroup(front: string, group: string, t: string)
    ensures front + (group + [Dash] + t) == front + group + [Dash] + t
  {
  }

  lemma GroupedTwoSteps(c: string)
    requires |c| > 2 * GroupSize
    ensures Grouped(c) == c[..3] + [Dash] + c[3..6] + [Dash] + Grouped(c[6..])
  {
    var c1 := c[3..];
    var g1, g2 := Grouped(c1), Grouped(c[6..]);
    SliceOfSlice(c, 3, 3);
    GroupedStep(c);
    GroupedStep(c1);
    assert g1 == c[3..6] + [Dash] + g2;
    AppendGroup(c[..3] + [Dash], c[3..6], g2);
  }

  lemma GroupedLong(c: string)
    requires |c| > CodeChars
    ensures Grouped(c) == Layout(c) + [Dash] + Grouped(c[9..])
  {
    var c2 := c[6..];
    var front := c[..3] + [Dash] + c[3..6] + [Dash];
    assert Layout(c) == front + c[6..9];
    SliceOfSlice(c, 6, 3);
    var g2, g3 := Grouped(c2), Grouped(c[9..]);
    GroupedTwoSteps(c);
    GroupedStep(c2);
    assert g2 == c[6..9] + [Dash] + g3;
    AppendGroup(front, c[6..9], g3);
  }

  lemma TakePrefix(head: string, tail: string)
    requires |head| == MaxLength
    ensures (head + tail)[..MaxLength] == head
  {
  }

  /** Grouping a cleaned code and keeping 11 characters gives its layout. */
  lemma GroupedIsLayout(c: string)
    ensures Grouped(c)[..Min(MaxLength, |Grouped(c)|)] == Layout(c)
  {
    if |c| <= 6 {
    } else if |c| <= 9 {
      GroupedTwoSteps(c);
    } else {
      GroupedLong(c);
      TakePrefix(Layout(c), [Dash] + Grouped(c[9..]));
    }
  }

  /** The formatter's output is the closed-form layout of the cleaned input. */
  lemma FormatIsLayout(value: string)
    ensures Format(value) == Layout(Clean(value))
  {
    JoinChunksIsGrouped(Clean(value));
    GroupedIsLayout(Clean(value));
  }

  /** The layout as its groups, and the first nine characters as the same groups. */
  lemma LayoutSplit(c: string)
    ensures |c| <= 3 ==> Layout(c) == c && c[..Min(CodeChars, |c|)] == c
    ensures 3 < |c| <= 6 ==> Layout(c) == c[..3] + [Dash] + c[3..] && c[..Min(CodeChars, |c|)] == c[..3] + c[3..]
    ensures 6 < |c| ==>
              && Layout(c) == c[..3] + [Dash] + c[3..6] + [Dash] + c[6..Min(CodeChars, |c|)]
              && c[..Min(CodeChars, |c|)] == c[..3] + c[3..6] + c[6..Min(CodeChars, |c|)]
  {
    if 6 < |c| {
      var m := Min(CodeChars, |c|);
      assert c[..m] == c[..3] + c[3..6] + c[6..m];
    }
  }

  lemma IsCodeSlice(s: string, i: nat, j: nat)
    requires IsCode(s) && i <= j <= |s|
    ensures IsCode(s[i..j])
  {
  }

  /** Drops every dash: the inverse of the grouping. */
  function RemoveDashes(s: string): (r: string)
    ensures |r| <= |s|
  {
    if s == [] then [] else (if s[0] == Dash then [] else [s[0]]) + RemoveDashes(s[1..])
  }

  lemma {:induction false} RemoveDashesOfCode(c: string)
    requires IsCode(c)
    ensures RemoveDashes(c) == c
  {
    if c != [] {
      RemoveDashesOfCode(c[1..]);
    }
  }

  /** Removing the dash between a prefix and a group of letters and digits. */
  lemma {:induction false} RemoveDashesJoin(a: string, g: string)
    requires IsCode(g)
    ensures RemoveDashes(a + [Dash] + g) == RemoveDashes(a) + g
  {
    if a == [] {
      assert a + [Dash] + g == [Dash] + g;
      assert ([Dash] + g)[1..] == g;
      RemoveDashesOfCode(g);
    } else {
      var head := if a[0] == Dash then [] else [a[0]];
      assert (a + [Dash] + g)[0] == a[0];
      assert (a + [Dash] + g)[1..] == a[1..] + [Dash] + g;
      assert RemoveDashes(a + [Dash] + g) == head + RemoveDashes(a[1..] + [Dash] + g);
      assert RemoveDashes(a) == head + RemoveDashes(a[1..]);
      RemoveDashesJoin(a[1..], g);
    }
  }

  /** Removing the dashes of a layout gives the first nine characters. */
  lemma RemoveDashesOfLayout(c: string)
    requires IsCode(c)
    ensures RemoveDashes(Layout(c)) == c[..Min(CodeChars, |c|)]
  {
    LayoutSplit(c);
    if |c| <= 3 {
      RemoveDashesOfCode(c);
    } else {
      IsCodeSlice(c, 0, 3);
      RemoveDashesOfCode(c[..3]);
      if |c| <= 6 {
        IsCodeSlice(c, 3, |c|);
        RemoveDashesJoin(c[..3], c[3..]);
      } else {
        var m := Min(CodeChars, |c|);
        IsCodeSlice(c, 3, 6);
        IsCodeSlice(c, 6, m);
        RemoveDashesJoin(c[..3] + [Dash] + c[3..6], c[6..m]);
        RemoveDashesJoin(c[..3], c[3..6]);
      }
    }
  }

  /** Removing the dashes from a formatted code gives back the first min(9, n)
      characters of the cleaned input, n being its length. */
  lemma FormatRemoveDashes(value: string)
    ensures RemoveDashes(Format(value)) == Clean(value)[..Min(CodeChars, |Clean(value)|)]
  {
    FormatIsLayout(value);
    RemoveDashesOfLayout(Clean(value));
  }

  /** Every character of a formatted code is an upper-case letter, a digit or a dash. */
  lemma FormatAlphabet(value: string)
    ensures forall i :: 0 <= i < |Format(value)| ==> IsCodeChar(Format(value)[i]) || Format(value)[i] == Dash
  {
    FormatIsLayout(value);
    LayoutAlphabet(Clean(value));
  }

  lemma LayoutAlphabet(c: string)
    requires IsCode(c)
    ensures forall i :: 0 <= i < |Layout(c)| ==> IsCodeChar(Layout(c)[i]) || Layout(c)[i] == Dash
  {
    var l := Layout(c);
    if |c| <= 3 {
    } else if |c| <= 6 {
      assert forall i :: 0 <= i < 3 ==> l[i] == c[i];
      assert forall i :: 3 < i < |l| ==> l[i] == c[i - 1];
    } else {
      assert forall i :: 0 <= i < 3 ==> l[i] == c[i];
      assert forall i :: 3 < i < 7 ==> l[i] == c[i - 1];
      assert forall i :: 7 < i < |l| ==> l[i] == c[i - 2];
    }
  }

  /** Dashes stand exactly at indices 3 and 7, each is followed by a character,
      and the code is a 3-character group, then groups of three after each dash. */
  lemma FormatGrouping(value: string)
    ensures forall i :: 0 <= i < |Format(value)| ==> (Format(value)[i] == Dash <==> i == 3 || i == 7)
    ensures forall i :: 0 <= i < |Format(value)| && Format(value)[i] == Dash ==> i + 1 < |Format(value)|
    ensures |Format(value)| != 4 && |Format(value)| != 8
  {
    FormatIsLayout(value);
    LayoutGrouping(Clean(value));
  }

  lemma LayoutGrouping(c: string)
    requires IsCode(c)
    ensures forall i :: 0 <= i < |Layout(c)| ==> (Layout(c)[i] == Dash <==> i == 3 || i == 7)
    ensures |Layout(c)| != 4 && |Layout(c)| != 8
  {
    var l := Layout(c);
    if |c| <= 3 {
    } else if |c| <= 6 {
      assert forall i :: 0 <= i < 3 ==> l[i] == c[i];
      assert forall i :: 3 < i < |l| ==> l[i] == c[i - 1];
    } else {
      assert forall i :: 0 <= i < 3 ==> l[i] == c[i];
      assert forall i :: 3 < i < 7 ==> l[i] == c[i - 1];
      assert forall i :: 7 < i < |l| ==> l[i] == c[i - 2];
    }
  }

  lemma {:induction false} CleanAppend(a: string, b: string)
    ensures Clean(a + b) == Clean(a) + Clean(b)
  {
    if a == [] {
      assert a + b == b;
    } else {
      assert (a + b)[1..] == a[1..] + b;
      CleanAppend(a[1..], b);
    }
  }

  lemma {:induction false} CleanOfCode(c: string)
    requires IsCode(c)
    ensures Clean(c) == c
  {
    if c != [] {
      CleanOfCode(c[1..]);
    }
  }

  lemma CleanDropsDelimiter(d: char)
    requires !IsCodeChar(ToUpper(d))
    ensures Clean([d]) == []
  {
    assert [d][1..] == [];
  }

  /** Cleaning drops the dash between a prefix and a group of letters and digits. */
  lemma {:induction false} CleanJoin(a: string, g: string)
    requires IsCode(g)
    ensures Clean(a + [Dash] + g) == Clean(a) + g
  {
    if a == [] {
      assert a + [Dash] + g == [Dash] + g;
      assert ([Dash] + g)[1..] == g;
      CleanOfCode(g);
    } else {
      assert (a + [Dash] + g)[0] == a[0];
      assert (a + [Dash] + g)[1..] == a[1..] + [Dash] + g;
      CleanJoin(a[1..], g);
    }
  }

  /** Cleaning text that is already a formatted code gives its first nine characters. */
  lemma CleanOfLayout(c: string)
    requires IsCode(c)
    ensures Clean(Layout(c)) == c[..Min(CodeChars, |c|)]
  {
    LayoutSplit(c);
    if |c| <= 3 {
      CleanOfCode(c);
    } else {
      IsCodeSlice(c, 0, 3);
      CleanOfCode(c[..3]);
      if |c| <= 6 {
        IsCodeSlice(c, 3, |c|);
        CleanJoin(c[..3], c[3..]);
      } else {
        var m := Min(CodeChars, |c|);
        IsCodeSlice(c, 3, 6);
        IsCodeSlice(c, 6, m);
        CleanJoin(c[..3] + [Dash] + c[3..6], c[6..m]);
        CleanJoin(c[..3], c[3..6]);
      }
    }
  }

  /** The layout depends on the first nine characters only. */
  lemma LayoutOfPrefix(c: string)
    ensures Layout(c[..Min(CodeChars, |c|)]) == Layout(c)
  {
  }

  /** Re-formatting a formatted code changes nothing, so re-formatting the field
      on every keystroke is stable. */
  lemma FormatIdempotent(value: string)
    ensures Format(Format(value)) == Format(value)
  {
    var c := Clean(value);
    FormatIsLayout(value);
    FormatIsLayout(Format(value));
    CleanOfLayout(c);
    LayoutOfPrefix(c);
  }

  /** Two inputs that agree character by character after upper-casing. */
  predicate SameUpToCase(a: string, b: string) {
    |a| == |b| && forall i :: 0 <= i < |a| ==> ToUpper(a[i]) == ToUpper(b[i])
  }

  lemma {:induction false} CleanIgnoresCase(a: string, b: string)
    requires SameUpToCase(a, b)
    ensures Clean(a) == Clean(b)
  {
    if a != [] {
      CleanIgnoresCase(a[1..], b[1..]);
    }
  }

  /** Letter case does not matter: inputs equal up to case format identically. */
  lemma FormatIgnoresCase(a: string, b: string)
    requires SameUpToCase(a, b)
    ensures Format(a) == Format(b)
  {
    CleanIgnoresCase(a, b);
  }

  /** Delimiters do not matter: inserting a character that is not a letter or
      digit anywhere leaves the formatted code unchanged. */
  lemma FormatIgnoresDelimiter(a: string, d: char, b: string)
    requires !IsCodeChar(ToUpper(d))
    ensures Format(a + [d] + b) == Format(a + b)
  {
    CleanAppend(a + [d], b);
    CleanAppend(a, [d]);
    CleanAppend(a, b);
    CleanDropsDelimiter(d);
    assert Clean(a + [d] + b) == Clean(a + b);
  }

  // ---------------------------------------------------------------------------
  // Submit rule and reply decision.
  // ---------------------------------------------------------------------------

  /** The submit button is enabled unless `isLoading || secretCode.length < 11`. */
  predicate SubmitEnabled(isLoading: bool, secretCode: string): (b: bool)
    ensures b <==> !isLoading && |secretCode| >= MaxLength
  {
    !(isLoading || |secretCode| < MaxLength)
  }

  /** For a field holding a formatted code, the button is enabled exactly when
      nothing is loading and the input holds at least nine letters and digits. */
  lemma SubmitEnabledIffComplete(isLoading: bool, value: string)
    ensures SubmitEnabled(isLoading, Format(value)) <==> !isLoading && |Clean(value)| >= CodeChars
  {
    FormatIsLayout(value);
  }

  /** The parts of the check-in reply that the handler reads. */
  datatype CheckinReply = CheckinReply(ok: bool, alreadyCheckedIn: bool, doorPin: Option<string>, error: Option<string>)

  /** Either the PIN is handed to the page, or an error message is shown. */
  datatype CheckinOutcome = Delivered(doorPin: Option<string>) | Failed(message: string)

  const FallbackError: string := "Failed to complete check-in"

  /** The branches of `handleSubmit` after the reply has been parsed. */
  function DecideOutcome(reply: CheckinReply): (o: CheckinOutcome)
    ensures o.Delivered? <==> reply.ok || (reply.alreadyCheckedIn && Truthy(reply.doorPin))
    ensures o.Delivered? ==> o.doorPin == reply.doorPin
    ensures o.Delivered? && !reply.ok ==> Truthy(o.doorPin)
    ensures o.Failed? ==> o.message != ""
    ensures o.Failed? && Truthy(reply.error) ==> o.message == reply.error.value
    ensures o.Failed? && !Truthy(reply.error) ==> o.message == FallbackError
  {
    if !reply.ok then
      if reply.alreadyCheckedIn && Truthy(reply.doorPin) then Delivered(reply.doorPin)
      else Failed(OrElse(reply.error, FallbackError))
    else Delivered(reply.doorPin)
  }

  /** The component's state: the field value, the loading flag and the error shown. */
  class SecretCodeForm {
    var secretCode: string
    var isLoading: bool
    var error: string

    /** The field always holds a formatted code. */
    ghost predicate Valid()
      reads this
    {
      Format(secretCode) == secretCode
    }

    constructor ()
      ensures Valid()
      ensures secretCode == "" && !isLoading && error == ""
    {
      secretCode, isLoading, error := "", false, "";
    }

    /** `handleSecretCodeChange`: the field takes the formatted input. */
    method HandleSecretCodeChange(value: string)
      modifies this`secretCode
      ensures secretCode == Format(value)
      ensures Valid()
    {
      secretCode := FormatSecretCode(value);
      FormatIdempotent(value);
    }

    /** The submit button's enabled state. */
    function CanSubmit(): (b: bool)
      reads this
      requires Valid()
      ensures b <==> !isLoading && |secretCode| == MaxLength
    {
      SubmitEnabled(isLoading, secretCode)
    }

    /** `handleSubmit` once the reply is in: the error is cleared, then set on failure;
        loading ends in every case. */
    method HandleSubmit(reply: CheckinReply) returns (outcome: CheckinOutcome)
      modifies this`isLoading, this`error
      ensures outcome == DecideOutcome(reply)
      ensures error == (if outcome.Failed? then outcome.message else "")
      ensures !isLoading
    {
      error := "";
      isLoading := true;
      outcome := DecideOutcome(reply);
      if outcome.Failed? {
        error := outcome.message;
      }
      isLoading := false;
    }
  }
}
