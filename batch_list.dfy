/** The result list of the barcode page and the handlers that change it:
    a random batch replaces the list, a batch built from typed content is
    put in front of it, and clearing empties it.  Every refusal leaves the
    list as it was. */
module BatchList {
  import opened Text
  import opened CodeTypes
  import opened Validation
  import opened RandomValues

  /** Most entries one generation may produce, and most content lines. */
  const MaxBatch: int := 100

  /** The message a handler raises (which one, not its wording). */
  datatype Toast =
    | CountNotPositive
    | CountTooLarge
    | Generated(count: nat)
    | NoContent
    | TooManyLines
    | LineInvalid(line: nat, reason: Reason)
    | ValueInvalid(reason: Reason)
    | GeneratedFromLines(count: nat)
    | GeneratedFromValue(count: nat)
    | NothingToExport
    | Copied
    | CopyFailed

  /** What a handler does: the message it raises and the list it leaves. */
  datatype Step = Step(toast: Toast, codes: seq<GeneratedCode>)

  /** Every entry holds a value its own symbology accepts. */
  predicate AllValid(codes: seq<GeneratedCode>) {
    forall i | 0 <= i < |codes| :: Validate(codes[i].kind, codes[i].value) == None
  }

  /** No two entries share an id. */
  predicate DistinctIds(codes: seq<GeneratedCode>) {
    forall i, j | 0 <= i < j < |codes| :: codes[i].id != codes[j].id
  }

  /** Entry `i` of a batch has index `i` in its id. */
  predicate IndexedIds(codes: seq<GeneratedCode>) {
    forall i | 0 <= i < |codes| :: codes[i].id.Index() == i
  }

  lemma IndexedIdsAreDistinct(codes: seq<GeneratedCode>)
    requires IndexedIds(codes)
    ensures DistinctIds(codes)
  {
  }

  predicate AllValidDraws(t: CodeType, draws: seq<seq<nat>>) {
    forall i | 0 <= i < |draws| :: ValidDraws(t, draws[i])
  }

  /** The batch `handleGenerate` builds: entry `i` is stamped with the clock
      reading taken for it and its index, and holds the value generated
      from the i-th draws. */
  function RandomBatch(t: CodeType, clock: nat -> int, draws: seq<seq<nat>>): seq<GeneratedCode>
    requires AllValidDraws(t, draws)
  {
    seq(|draws|, i requires 0 <= i < |draws| =>
      GeneratedCode(Stamped(clock(i), i), t, RandomValue(t, draws[i])))
  }

  /** `handleGenerate` after the form has produced `type` and `count`. */
  function GenerateStep(prev: seq<GeneratedCode>, t: CodeType, count: int,
                        clock: nat -> int, draws: seq<seq<nat>>): Step
    requires 0 < count <= MaxBatch ==> |draws| == count && AllValidDraws(t, draws)
  {
    if count <= 0 then Step(CountNotPositive, prev)
    else if count > MaxBatch then Step(CountTooLarge, prev)
    else Step(Generated(count), RandomBatch(t, clock, draws))
  }

  /** Trim every piece and drop the empty ones, keeping the order. */
  function NonBlankTrimmed(pieces: seq<string>): (lines: seq<string>)
    ensures |lines| <= |pieces|
    ensures forall k | 0 <= k < |lines| :: lines[k] != [] && IsTrimmed(lines[k])
    ensures (forall k | 0 <= k < |pieces| :: '\n' !in pieces[k]) ==>
              forall k | 0 <= k < |lines| :: '\n' !in lines[k]
    decreases |pieces|
  {
    if |pieces| == 0 then []
    else
      var line := Trim(pieces[0]);
      TrimOmits(pieces[0], '\n');
      (if line == [] then [] else [line]) + NonBlankTrimmed(pieces[1..])
  }

  /** `customValue.split(/\r?\n/).map((v) => v.trim()).filter((v) => !!v)`. */
  function ContentLines(customValue: string): (lines: seq<string>)
    ensures forall k | 0 <= k < |lines| :: lines[k] != [] && IsPlainLine(lines[k])
  {
    NonBlankTrimmed(SplitLines(customValue))
  }

  /** Lines that are already trimmed and non-empty pass the filter
      unchanged. */
  lemma {:induction false} NonBlankTrimmedKeeps(lines: seq<string>)
    requires forall k | 0 <= k < |lines| :: lines[k] != [] && IsTrimmed(lines[k])
    ensures NonBlankTrimmed(lines) == lines
    decreases |lines|
  {
    if |lines| > 0 {
      assert Trim(lines[0]) == lines[0] by {
        TrimmedIsFixpoint(lines[0]);
      }
      NonBlankTrimmedKeeps(lines[1..]);
      assert [lines[0]] + lines[1..] == lines;
    }
  }

  /** The clean-up works piece by piece: cleaning two runs of pieces one
      after the other is cleaning their concatenation.  With the one-piece
      case (a piece is kept, as its trim, exactly when its trim is not
      empty) this fixes the result: the non-blank pieces, trimmed, in input
      order. */
  lemma {:induction false} NonBlankTrimmedAppend(a: seq<string>, b: seq<string>)
    ensures NonBlankTrimmed(a + b) == NonBlankTrimmed(a) + NonBlankTrimmed(b)
    decreases |a|
  {
    if |a| == 0 {
      assert a + b == b;
    } else {
      assert (a + b)[0] == a[0];
      assert (a + b)[1..] == a[1..] + b;
      NonBlankTrimmedAppend(a[1..], b);
    }
  }

  lemma NonBlankTrimmedOne(piece: string)
    ensures NonBlankTrimmed([piece]) == if Trim(piece) == [] then [] else [Trim(piece)]
  {
    assert [piece][1..] == [];
  }

  /** Every piece whose trim is not empty is kept, as its trim. */
  lemma {:induction false} NonBlankTrimmedKeepsPiece(pieces: seq<string>, k: nat)
    requires k < |pieces| && Trim(pieces[k]) != []
    ensures Trim(pieces[k]) in NonBlankTrimmed(pieces)
    decreases k
  {
    var lines := NonBlankTrimmed(pieces);
    if k == 0 {
      assert lines[0] == Trim(pieces[0]);
    } else {
      var tail := pieces[1..];
      assert tail[k - 1] == pieces[k];
      NonBlankTrimmedKeepsPiece(tail, k - 1);
      var rest := NonBlankTrimmed(tail);
      var i :| 0 <= i < |rest| && rest[i] == Trim(pieces[k]);
      var h := if Trim(pieces[0]) == [] then 0 else 1;
      assert lines == (if h == 0 then [] else [Trim(pieces[0])]) + rest;
      assert lines[i + h] == rest[i];
    }
  }

  /** `line` is the trim of one of `pieces`. */
  predicate TrimOfSome(line: string, pieces: seq<string>) {
    exists k | 0 <= k < |pieces| :: line == Trim(pieces[k])
  }

  /** Every line that comes out is the trim of some piece. */
  lemma {:induction false} NonBlankTrimmedFromPieces(pieces: seq<string>, m: nat)
    requires m < |NonBlankTrimmed(pieces)|
    ensures TrimOfSome(NonBlankTrimmed(pieces)[m], pieces)
    decreases |pieces|
  {
    var lines := NonBlankTrimmed(pieces);
    var tail := pieces[1..];
    var rest := NonBlankTrimmed(tail);
    var h := if Trim(pieces[0]) == [] then 0 else 1;
    assert lines == (if h == 0 then [] else [Trim(pieces[0])]) + rest;
    if m < h {
      assert lines[m] == Trim(pieces[0]);
    } else {
      assert lines[m] == rest[m - h];
      NonBlankTrimmedFromPieces(tail, m - h);
      var k :| 0 <= k < |tail| && rest[m - h] == Trim(tail[k]);
      assert tail[k] == pieces[k + 1];
    }
  }

  /** The clean-up leaves nothing exactly when every piece is blank. */
  lemma {:induction false} NonBlankTrimmedEmpty(pieces: seq<string>)
    ensures NonBlankTrimmed(pieces) == [] <==> AllBlank(pieces)
    decreases |pieces|
  {
    if |pieces| > 0 {
      NonBlankTrimmedEmpty(pieces[1..]);
      TrimBlank(pieces[0]);
      assert pieces == [pieces[0]] + pieces[1..];
      AllBlankCons(pieces[0], pieces[1..]);
    }
  }

  /** The content has no lines (and the handler refuses it) exactly when the
      text is all whitespace, line breaks included. */
  lemma ContentLinesBlank(customValue: string)
    ensures ContentLines(customValue) == [] <==> IsBlank(customValue)
  {
    NonBlankTrimmedEmpty(SplitLines(customValue));
    SplitLinesBlank(customValue);
  }

  /** Pasting the cleaned-up lines back, one per line, yields the same lines:
      the clean-up is idempotent. */
  lemma ContentLinesReentry(customValue: string)
    ensures ContentLines(JoinLines(ContentLines(customValue))) == ContentLines(customValue)
  {
    var lines := ContentLines(customValue);
    if |lines| > 0 {
      SplitJoin(lines);
      NonBlankTrimmedKeeps(lines);
    } else {
      ContentLinesBlank(JoinLines(lines));
    }
  }

  /** The validator's verdict on each line, in order. */
  function Verdicts(t: CodeType, lines: seq<string>): seq<Option<Reason>> {
    seq(|lines|, j requires 0 <= j < |lines| => Validate(t, lines[j]))
  }

  /** The first refusal in a list of verdicts, with its 0-based position. */
  function FirstRefusal(verdicts: seq<Option<Reason>>): Option<(nat, Reason)>
    decreases |verdicts|
  {
    if |verdicts| == 0 then None
    else
      match verdicts[0]
      case Some(reason) => Some((0, reason))
      case None =>
        match FirstRefusal(verdicts[1..])
        case None => None
        case Some(found) => Some((found.0 + 1, found.1))
  }

  /** FirstRefusal finds nothing exactly when every verdict is an
      acceptance, and otherwise names a refusal all of whose predecessors
      are acceptances. */
  lemma {:induction false} FirstRefusalSpec(verdicts: seq<Option<Reason>>)
    ensures var r := FirstRefusal(verdicts);
            (r.None? <==> forall j | 0 <= j < |verdicts| :: verdicts[j].None?)
            && (r.Some? ==>
                  r.value.0 < |verdicts| && verdicts[r.value.0] == Some(r.value.1)
                  && forall j | 0 <= j < r.value.0 :: verdicts[j].None?)
    decreases |verdicts|
  {
    if |verdicts| > 0 && verdicts[0].None? {
      var rest := verdicts[1..];
      FirstRefusalSpec(rest);
      assert forall j | 1 <= j < |verdicts| :: verdicts[j] == rest[j - 1];
    }
  }

  /** The first line the validator refuses, with its 0-based position and
      the reason. */
  function FirstInvalid(t: CodeType, lines: seq<string>): Option<(nat, Reason)> {
    FirstRefusal(Verdicts(t, lines))
  }

  /** FirstInvalid finds nothing exactly when every line is accepted, and
      otherwise names a refused line all of whose predecessors are
      accepted, with the reason the validator gives for it. */
  lemma FirstInvalidSpec(t: CodeType, lines: seq<string>)
    ensures var r := FirstInvalid(t, lines);
            (r.None? <==> forall j | 0 <= j < |lines| :: Validate(t, lines[j]).None?)
            && (r.Some? ==>
                  r.value.0 < |lines| && Validate(t, lines[r.value.0]) == Some(r.value.1)
                  && forall j | 0 <= j < r.value.0 :: Validate(t, lines[j]).None?)
  {
    var verdicts := Verdicts(t, lines);
    FirstRefusalSpec(verdicts);
    assert forall j | 0 <= j < |lines| :: verdicts[j] == Validate(t, lines[j]);
  }

  /** A refusal preceded only by acceptances is the one FirstRefusal
      reports. */
  lemma FirstRefusalAt(verdicts: seq<Option<Reason>>, i: nat)
    requires i < |verdicts| && verdicts[i].Some?
    requires forall j | 0 <= j < i :: verdicts[j].None?
    ensures FirstRefusal(verdicts) == Some((i, verdicts[i].value))
  {
    FirstRefusalSpec(verdicts);
  }

  /** The first refused line is where FirstInvalid stops. */
  lemma FirstInvalidAt(t: CodeType, lines: seq<string>, i: nat, reason: Reason)
    requires i < |lines| && Validate(t, lines[i]) == Some(reason)
    requires forall j | 0 <= j < i :: Validate(t, lines[j]).None?
    ensures FirstInvalid(t, lines) == Some((i, reason))
  {
    FirstRefusalAt(Verdicts(t, lines), i);
  }

  /** The validation loop of `handleGenerateFromValue`: lines are checked
      in order and the first refusal ends the loop. */
  method FindInvalidLine(t: CodeType, lines: seq<string>) returns (bad: Option<(nat, Reason)>)
    ensures bad == FirstInvalid(t, lines)
  {
    for i := 0 to |lines|
      invariant forall j | 0 <= j < i :: Validate(t, lines[j]).None?
    {
      var err := Validate(t, lines[i]);
      if err.Some? {
        FirstInvalidAt(t, lines, i, err.value);
        bad := Some((i, err.value));
        return;
      }
    }
    FirstInvalidSpec(t, lines);
    bad := None;
  }

  /** One entry per content line, in input order. */
  function LineEntries(t: CodeType, lines: seq<string>, clock: nat -> int,
                       suffix: nat -> string): seq<GeneratedCode>
  {
    seq(|lines|, i requires 0 <= i < |lines| =>
      GeneratedCode(StampedRandom(clock(i), i, suffix(i)), t, lines[i]))
  }

  /** `count` entries holding the same value. */
  function Copies(t: CodeType, value: string, count: nat, clock: nat -> int,
                  suffix: nat -> string): seq<GeneratedCode>
  {
    seq(count, i requires 0 <= i < count =>
      GeneratedCode(StampedRandom(clock(i), i, suffix(i)), t, value))
  }

  /** `handleGenerateFromValue` after the form has produced `type`,
      `customValue` and `count`: the text is cut into content lines, and
      what follows depends only on those lines. */
  function FromValueStep(prev: seq<GeneratedCode>, t: CodeType, customValue: string, count: int,
                         clock: nat -> int, suffix: nat -> string): Step
  {
    FromLinesStep(prev, t, ContentLines(customValue), count, clock, suffix)
  }

  /** The rest of `handleGenerateFromValue`, once the content lines are
      known. */
  function FromLinesStep(prev: seq<GeneratedCode>, t: CodeType, lines: seq<string>, count: int,
                         clock: nat -> int, suffix: nat -> string): Step
  {
    if |lines| == 0 then Step(NoContent, prev)
    else if |lines| > 1 then
      if |lines| > MaxBatch then Step(TooManyLines, prev)
      else
        match FirstInvalid(t, lines)
        case Some(bad) => Step(LineInvalid(bad.0 + 1, bad.1), prev)
        case None => Step(GeneratedFromLines(|lines|), LineEntries(t, lines, clock, suffix) + prev)
    else if count <= 0 then Step(CountNotPositive, prev)
    else if count > MaxBatch then Step(CountTooLarge, prev)
    else
      match Validate(t, lines[0])
      case Some(reason) => Step(ValueInvalid(reason), prev)
      case None => Step(GeneratedFromValue(count), Copies(t, lines[0], count, clock, suffix) + prev)
  }

  // ---------------------------------------------------------------------
  // Properties of a random batch

  /** A count outside 1..100 is refused and the list is left as it was. */
  lemma GenerateRefusesCount(prev: seq<GeneratedCode>, t: CodeType, count: int,
                             clock: nat -> int, draws: seq<seq<nat>>)
    requires count <= 0 || count > MaxBatch
    ensures GenerateStep(prev, t, count, clock, draws)
            == Step(if count <= 0 then CountNotPositive else CountTooLarge, prev)
  {
  }

  /** A count in 1..100 replaces the whole list by exactly `count` entries
      of the chosen symbology, with distinct ids and values the validator
      accepts. */
  lemma GenerateReplaces(prev: seq<GeneratedCode>, t: CodeType, count: int,
                         clock: nat -> int, draws: seq<seq<nat>>)
    requires 0 < count <= MaxBatch && |draws| == count && AllValidDraws(t, draws)
    ensures var step := GenerateStep(prev, t, count, clock, draws);
            step.toast == Generated(count) && |step.codes| == count
            && (forall i | 0 <= i < count :: step.codes[i].kind == t)
            && DistinctIds(step.codes) && AllValid(step.codes)
  {
    var batch := RandomBatch(t, clock, draws);
    forall i | 0 <= i < count
      ensures Validate(batch[i].kind, batch[i].value) == None
    {
      RandomValueAccepted(t, draws[i]);
    }
    IndexedIdsAreDistinct(batch);
  }

  /** Every list a random batch leaves holds only accepted values, if the
      list before did. */
  lemma GenerateKeepsValid(prev: seq<GeneratedCode>, t: CodeType, count: int,
                           clock: nat -> int, draws: seq<seq<nat>>)
    requires 0 < count <= MaxBatch ==> |draws| == count && AllValidDraws(t, draws)
    requires AllValid(prev)
    ensures AllValid(GenerateStep(prev, t, count, clock, draws).codes)
  {
    if 0 < count <= MaxBatch {
      GenerateReplaces(prev, t, count, clock, draws);
    }
  }

  // ---------------------------------------------------------------------
  // Properties of a batch built from content.  They are stated over the
  // content lines; FromValueStep feeds ContentLines(customValue) to them.

  /** No non-blank line: refused, list unchanged. */
  lemma FromLinesNoContent(prev: seq<GeneratedCode>, t: CodeType, count: int,
                           clock: nat -> int, suffix: nat -> string)
    ensures FromLinesStep(prev, t, [], count, clock, suffix) == Step(NoContent, prev)
  {
  }

  /** With several lines the count plays no part. */
  lemma FromLinesIgnoreCount(prev: seq<GeneratedCode>, t: CodeType, lines: seq<string>,
                             count: int, other: int, clock: nat -> int, suffix: nat -> string)
    requires |lines| > 1
    ensures FromLinesStep(prev, t, lines, count, clock, suffix)
            == FromLinesStep(prev, t, lines, other, clock, suffix)
  {
  }

  /** More than 100 lines: refused, list unchanged. */
  lemma FromLinesTooMany(prev: seq<GeneratedCode>, t: CodeType, lines: seq<string>, count: int,
                         clock: nat -> int, suffix: nat -> string)
    requires |lines| > MaxBatch
    ensures FromLinesStep(prev, t, lines, count, clock, suffix) == Step(TooManyLines, prev)
  {
  }

  /** Several lines, one refused: the whole batch is refused, the list is
      unchanged, and the message names the first refused line, counted from
      1, with its reason. */
  lemma FromLinesReportsFirstInvalid(prev: seq<GeneratedCode>, t: CodeType, lines: seq<string>,
                                     count: int, clock: nat -> int, suffix: nat -> string, k: nat)
    requires 1 < |lines| <= MaxBatch && k < |lines| && Validate(t, lines[k]).Some?
    requires forall j | 0 <= j < k :: Validate(t, lines[j]).None?
    ensures FromLinesStep(prev, t, lines, count, clock, suffix)
            == Step(LineInvalid(k + 1, Validate(t, lines[k]).value), prev)
  {
    FirstInvalidAt(t, lines, k, Validate(t, lines[k]).value);
  }

  /** Several lines, all accepted: one entry per line, in input order, put in
      front of the old entries, which follow unchanged. */
  lemma FromLinesPrepended(prev: seq<GeneratedCode>, t: CodeType, lines: seq<string>,
                           count: int, clock: nat -> int, suffix: nat -> string)
    requires 1 < |lines| <= MaxBatch
    requires forall j | 0 <= j < |lines| :: Validate(t, lines[j]).None?
    ensures var step := FromLinesStep(prev, t, lines, count, clock, suffix);
            var n := |lines|;
            step.toast == GeneratedFromLines(n) && |step.codes| == n + |prev|
            && step.codes[n..] == prev && DistinctIds(step.codes[..n])
            && forall i | 0 <= i < n :: step.codes[i].kind == t && step.codes[i].value == lines[i]
  {
    var entries := LineEntries(t, lines, clock, suffix);
    var step := FromLinesStep(prev, t, lines, count, clock, suffix);
    FirstInvalidSpec(t, lines);
    assert step.codes == entries + prev;
    assert step.codes[..|lines|] == entries;
    IndexedIdsAreDistinct(entries);
  }

  /** One line: the count is checked before the line is validated. */
  lemma FromLineCountFirst(prev: seq<GeneratedCode>, t: CodeType, line: string,
                           count: int, clock: nat -> int, suffix: nat -> string)
    requires count <= 0 || count > MaxBatch
    ensures FromLinesStep(prev, t, [line], count, clock, suffix)
            == Step(if count <= 0 then CountNotPositive else CountTooLarge, prev)
  {
  }

  /** One line, count in range, line refused: the validator's reason is
      reported and the list is unchanged. */
  lemma FromLineRefused(prev: seq<GeneratedCode>, t: CodeType, line: string,
                        count: int, clock: nat -> int, suffix: nat -> string)
    requires 0 < count <= MaxBatch && Validate(t, line).Some?
    ensures FromLinesStep(prev, t, [line], count, clock, suffix)
            == Step(ValueInvalid(Validate(t, line).value), prev)
  {
  }

  /** One line, count in range, line accepted: `count` entries holding that
      line are put in front of the old entries. */
  lemma FromLinePrepended(prev: seq<GeneratedCode>, t: CodeType, line: string,
                          count: int, clock: nat -> int, suffix: nat -> string)
    requires 0 < count <= MaxBatch && Validate(t, line).None?
    ensures var step := FromLinesStep(prev, t, [line], count, clock, suffix);
            step.toast == GeneratedFromValue(count) && |step.codes| == count + |prev|
            && step.codes[count..] == prev && DistinctIds(step.codes[..count])
            && forall i | 0 <= i < count :: step.codes[i].kind == t && step.codes[i].value == line
  {
    var copies := Copies(t, line, count, clock, suffix);
    var step := FromLinesStep(prev, t, [line], count, clock, suffix);
    assert step.codes == copies + prev;
    assert step.codes[..count] == copies;
    IndexedIdsAreDistinct(copies);
  }

  /** Whatever happens, the list afterwards is some new entries, all of the
      chosen symbology and all accepted by the validator, followed by the
      whole old list: content is only ever added in front, and only once it
      has been validated. */
  lemma FromLinesOnlyPrependsValid(prev: seq<GeneratedCode>, t: CodeType, lines: seq<string>,
                                   count: int, clock: nat -> int, suffix: nat -> string)
    ensures var step := FromLinesStep(prev, t, lines, count, clock, suffix);
            var n := |step.codes| - |prev|;
            n >= 0 && step.codes[n..] == prev
            && forall i | 0 <= i < n ::
                 step.codes[i].kind == t && Validate(t, step.codes[i].value) == None
  {
    if 1 < |lines| <= MaxBatch && FirstInvalid(t, lines).None? {
      FirstInvalidSpec(t, lines);
      FromLinesPrepended(prev, t, lines, count, clock, suffix);
    } else if |lines| == 1 && 0 < count <= MaxBatch && Validate(t, lines[0]).None? {
      assert lines == [lines[0]];
      FromLinePrepended(prev, t, lines[0], count, clock, suffix);
    }
  }

  /** Every list a batch from content leaves holds only accepted values, if
      the list before did. */
  lemma FromValueKeepsValid(prev: seq<GeneratedCode>, t: CodeType, customValue: string,
                            count: int, clock: nat -> int, suffix: nat -> string)
    requires AllValid(prev)
    ensures AllValid(FromValueStep(prev, t, customValue, count, clock, suffix).codes)
  {
    var lines := ContentLines(customValue);
    var step := FromLinesStep(prev, t, lines, count, clock, suffix);
    assert FromValueStep(prev, t, customValue, count, clock, suffix) == step;
    FromLinesOnlyPrependsValid(prev, t, lines, count, clock, suffix);
    PrependKeepsValid(step.codes, prev, |step.codes| - |prev|);
  }

  /** Accepted entries put in front of a list of accepted entries give a
      list of accepted entries. */
  lemma PrependKeepsValid(codes: seq<GeneratedCode>, prev: seq<GeneratedCode>, n: nat)
    requires n <= |codes| && codes[n..] == prev && AllValid(prev)
    requires forall i | 0 <= i < n :: Validate(codes[i].kind, codes[i].value) == None
    ensures AllValid(codes)
  {
    forall i | n <= i < |codes|
      ensures Validate(codes[i].kind, codes[i].value) == None
    {
      assert codes[i] == prev[i - n];
    }
  }

  // ---------------------------------------------------------------------
  // Export text

  /** One export line: `${item.type}: ${item.value}`. */
  function ExportLine(code: GeneratedCode): string {
    TypeName(code.kind) + ": " + code.value
  }

  /** An export line names its entry's type and value unambiguously: two
      entries give the same line exactly when they have the same type and the
      same value (type names hold no colon, so the first colon ends the
      name). */
  lemma ExportLineInjective(a: GeneratedCode, b: GeneratedCode)
    ensures ExportLine(a) == ExportLine(b) <==> a.kind == b.kind && a.value == b.value
  {
    if ExportLine(a) == ExportLine(b) {
      var line := ExportLine(a);
      var x, y := TypeName(a.kind), TypeName(b.kind);
      assert ':' !in x && ':' !in y;
      assert line[|x|] == ':';
      assert line[|y|] == ':';
      assert x == line[..|x|] == y;
      TypeNameInjective(a.kind, b.kind);
      assert a.value == line[|x| + 2..] == b.value;
    }
  }

  /** The text `handleCopyAll` hands to the clipboard. */
  function ExportText(codes: seq<GeneratedCode>): string {
    JoinLines(seq(|codes|, i requires 0 <= i < |codes| => ExportLine(codes[i])))
  }

  /** Splitting the export text on line breaks gives back one line per entry,
      in list order, as long as no value holds a line break of its own. */
  lemma ExportTextLines(codes: seq<GeneratedCode>)
    requires |codes| > 0
    requires forall i | 0 <= i < |codes| :: IsPlainLine(codes[i].value)
    ensures SplitLines(ExportText(codes)) == seq(|codes|, i requires 0 <= i < |codes| => ExportLine(codes[i]))
  {
    var lines := seq(|codes|, i requires 0 <= i < |codes| => ExportLine(codes[i]));
    forall k | 0 <= k < |lines| ensures IsPlainLine(lines[k]) {
      var name := TypeName(codes[k].kind);
      assert '\n' !in name && '\r' !in name;
      assert lines[k] == name + ": " + codes[k].value;
    }
    SplitJoin(lines);
  }

  // ---------------------------------------------------------------------
  // The page state

  /** The `codes` state of the page and its handlers.  Randomness and the
      clock are parameters: `draws[i]` are the draws behind entry `i` of a
      random batch, `clock(i)` the `Date.now()` reading and `suffix(i)` the
      random base-36 fragment taken for entry `i`. */
  class BarcodeManage {
    var codes: seq<GeneratedCode>

    constructor ()
      ensures codes == []
    {
      codes := [];
    }

    /** `handleGenerate`. */
    method HandleGenerate(t: CodeType, count: int, clock: nat -> int, draws: seq<seq<nat>>)
      returns (toast: Toast)
      requires 0 < count <= MaxBatch ==> |draws| == count && AllValidDraws(t, draws)
      modifies this
      ensures Step(toast, codes) == GenerateStep(old(codes), t, count, clock, draws)
    {
      if count <= 0 {
        toast := CountNotPositive;
        return;
      }
      if count > MaxBatch {
        toast := CountTooLarge;
        return;
      }
      var list: seq<GeneratedCode> := [];
      for index := 0 to count
        invariant |list| == index
        invariant forall i | 0 <= i < index ::
                    list[i] == GeneratedCode(Stamped(clock(i), i), t, RandomValue(t, draws[i]))
      {
        var value := GenerateRandomValueByType(t, draws[index]);
        list := list + [GeneratedCode(Stamped(clock(index), index), t, value)];
      }
      assert list == RandomBatch(t, clock, draws);
      codes := list;
      toast := Generated(count);
    }

    /** `handleGenerateFromValue`. */
    method HandleGenerateFromValue(t: CodeType, customValue: string, count: int,
                                   clock: nat -> int, suffix: nat -> string)
      returns (toast: Toast)
      modifies this
      ensures Step(toast, codes)
              == FromValueStep(old(codes), t, customValue, count, clock, suffix)
    {
      var lines := ContentLines(customValue);
      ghost var prev := codes;
      assert FromValueStep(prev, t, customValue, count, clock, suffix)
             == FromLinesStep(prev, t, lines, count, clock, suffix);
      if |lines| == 0 {
        toast := NoContent;
        return;
      }
      if |lines| > 1 {
        if |lines| > MaxBatch {
          toast := TooManyLines;
          return;
        }
        var bad := FindInvalidLine(t, lines);
        if bad.Some? {
          toast := LineInvalid(bad.value.0 + 1, bad.value.1);
          return;
        }
        codes := LineEntries(t, lines, clock, suffix) + codes;
        toast := GeneratedFromLines(|lines|);
        return;
      }
      if count <= 0 {
        toast := CountNotPositive;
        return;
      }
      if count > MaxBatch {
        toast := CountTooLarge;
        return;
      }
      var singleValue := lines[0];
      var error := Validate(t, singleValue);
      if error.Some? {
        toast := ValueInvalid(error.value);
        return;
      }
      codes := Copies(t, singleValue, count, clock, suffix) + codes;
      toast := GeneratedFromValue(count);
    }

    /** `handleClear`. */
    method HandleClear()
      modifies this
      ensures codes == []
    {
      codes := [];
    }

    /** `handleCopyAll`: with an empty list nothing is offered; otherwise the
      export text is offered to the clipboard, and `clipboardAccepts` is
      whether the clipboard write succeeded. */
    method HandleCopyAll(clipboardAccepts: bool) returns (toast: Toast, offered: Option<string>)
      ensures |codes| == 0 ==> toast == NothingToExport && offered == None
      ensures |codes| > 0 ==> offered == Some(ExportText(codes))
                              && toast == (if clipboardAccepts then Copied else CopyFailed)
    {
      if |codes| == 0 {
        toast, offered := NothingToExport, None;
        return;
      }
      var text := ExportText(codes);
      offered := Some(text);
      toast := if clipboardAccepts then Copied else CopyFailed;
    }
  }
}
