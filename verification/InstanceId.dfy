/** The identity of a portable copy (paths.rs): its shape, and the protocol by
    which processes started at once settle on one id in a shared folder. */
module InstanceIds {
  import opened Wrappers
  import opened Text

  // ---------- shape ----------

  const ID_LENGTH := 16

  predicate IsLowerHex(c: char) {
    '0' <= c <= '9' || 'a' <= c <= 'f'
  }

  predicate IsValid(id: string) {
    |id| == ID_LENGTH && forall i :: 0 <= i < |id| ==> IsLowerHex(id[i])
  }

  function HexDigit(d: nat): (c: char)
    requires d < 16
    ensures IsLowerHex(c) && HexValueOf(c) == d
  {
    if d < 10 then DigitChar(d) else ('a' as int + d - 10) as char
  }

  function HexValueOf(c: char): nat
    requires IsLowerHex(c)
  {
    if c <= '9' then c as int - '0' as int else c as int - 'a' as int + 10
  }

  /** The shortest hexadecimal numeral of n. */
  function Hex(n: nat): (s: string)
    ensures |s| > 0 && forall i :: 0 <= i < |s| ==> IsLowerHex(s[i])
  {
    if n < 16 then [HexDigit(n)] else Hex(n / 16) + [HexDigit(n % 16)]
  }

  function Zeros(k: nat): (s: string)
    ensures |s| == k && forall i :: 0 <= i < k ==> s[i] == '0'
  {
    seq(k, _ => '0')
  }

  /** Padded with zeros to 16 digits, never cut. */
  function FormatId(n: nat): string {
    var digits := Hex(n);
    Zeros(if |digits| < ID_LENGTH then ID_LENGTH - |digits| else 0) + digits
  }

  function HexValue(s: string): nat
    requires forall i :: 0 <= i < |s| ==> IsLowerHex(s[i])
  {
    if s == [] then 0 else 16 * HexValue(s[..|s| - 1]) + HexValueOf(s[|s| - 1])
  }

  function Pow16(k: nat): nat {
    if k == 0 then 1 else 16 * Pow16(k - 1)
  }

  lemma {:induction false} HexLength(n: nat, k: nat)
    requires k > 0 && n < Pow16(k)
    ensures |Hex(n)| <= k
  {
    if k > 1 && n >= 16 {
      HexLength(n / 16, k - 1);
    }
  }

  lemma {:induction false} HexRoundTrip(zeros: nat, n: nat)
    ensures HexValue(Zeros(zeros) + Hex(n)) == n
  {
    var s := Zeros(zeros) + Hex(n);
    if n < 16 {
      assert s[..|s| - 1] == Zeros(zeros);
      ZerosAreZero(zeros);
    } else {
      assert s[..|s| - 1] == Zeros(zeros) + Hex(n / 16);
      HexRoundTrip(zeros, n / 16);
    }
  }

  lemma {:induction false} ZerosAreZero(k: nat)
    ensures HexValue(Zeros(k)) == 0
  {
    if k > 0 {
      assert Zeros(k)[..k - 1] == Zeros(k - 1);
      ZerosAreZero(k - 1);
    }
  }

  const TWO_TO_THE_64: nat := 0x1_0000_0000_0000_0000

  lemma SixteenDigits()
    ensures Pow16(ID_LENGTH) == TWO_TO_THE_64
  {
    assert Pow16(4) == 0x1_0000;
    assert Pow16(8) == 0x1_0000_0000;
    assert Pow16(12) == 0x1_0000_0000_0000;
  }

  /** Every 64-bit value gives an id the validator accepts and the reader returns
      unchanged, and distinct values give distinct ids. */
  lemma FormattedIdIsValid(n: nat)
    requires n < TWO_TO_THE_64
    ensures IsValid(FormatId(n)) && ReadId(Readable(FormatId(n))) == Success(Some(FormatId(n)))
    ensures HexValue(FormatId(n)) == n
  {
    SixteenDigits();
    HexLength(n, ID_LENGTH);
    HexRoundTrip(ID_LENGTH - |Hex(n)|, n);
    ValidReadsBack(FormatId(n));
  }

  lemma FormatIdInjective(m: nat, n: nat)
    requires m < TWO_TO_THE_64 && n < TWO_TO_THE_64 && FormatId(m) == FormatId(n)
    ensures m == n
  {
    FormattedIdIsValid(m);
    FormattedIdIsValid(n);
  }

  // ---------- the file ----------

  /** The id file: missing, text, or bytes that are not text at all. */
  datatype IdFile = Absent | Readable(text: string) | NotText

  datatype IdError = Unreadable | TmpIsGone

  /** An id to adopt, or None for a missing or damaged file. */
  function ReadId(file: IdFile): Result<Option<string>, IdError> {
    match file
    case Absent => Success(None)
    case NotText => Failure(Unreadable)
    case Readable(text) =>
      var id := LowerAll(Trim(text, IsWhiteSpace));
      Success(if IsValid(id) then Some(id) else None)
  }

  /** Readable, but no id. */
  predicate IsDamaged(file: IdFile) {
    file.Readable? && ReadId(file) == Success(None)
  }

  predicate Holds(file: IdFile, id: string) {
    ReadId(file) == Success(Some(id))
  }

  lemma ValidReadsBack(id: string)
    requires IsValid(id)
    ensures Holds(Readable(id), id)
  {
    forall i | 0 <= i < |id| ensures !IsWhiteSpace(id[i]) && Lower(id[i]) == id[i] {
      HexIsPlain(id[i]);
    }
    hide IsWhiteSpace;
    hide IsLowerHex;
    TrimKeeps(id, IsWhiteSpace);
    assert LowerAll(id) == id;
  }

  lemma {:induction false} HexListed(d: nat)
    requires d < 16
    ensures HexDigit(d) == "0123456789abcdef"[d] && HexValueOf(HexDigit(d)) == d
  {
  }

  /** An upper-case or lower-case spelling of a lower-case digit. */
  predicate SpellsDigit(spelled: char, c: char) {
    || (spelled == c && ('0' <= c <= '9' || 'a' <= c <= 'f'))
    || ('a' <= c <= 'f' && 'A' <= spelled <= 'F' && spelled as int - 'A' as int == c as int - 'a' as int)
  }

  /** Sixteen hexadecimal digits of any case between white space; `id` in lower case. */
  ghost predicate SpellsId(text: string, id: string) {
    exists before, spelled, after ::
      && text == before + spelled + after && IsBlank(before, IsWhiteSpace) && IsBlank(after, IsWhiteSpace)
      && |spelled| == |id| == 16 && forall i :: 0 <= i < 16 ==> SpellsDigit(spelled[i], id[i])
  }

  lemma DigitIsSpelled(spelled: char, c: char)
    ensures SpellsDigit(spelled, c) <==> Lower(spelled) == c && IsLowerHex(c)
    ensures SpellsDigit(spelled, c) ==> !IsWhiteSpace(spelled)
  {
  }

  lemma IdIsSpelled(spelled: string, id: string)
    ensures LowerAll(spelled) == id && IsValid(id) <==>
            |spelled| == |id| == 16 && forall i :: 0 <= i < 16 ==> SpellsDigit(spelled[i], id[i])
  {
    forall i | 0 <= i < |spelled| && |spelled| == |id|
      ensures SpellsDigit(spelled[i], id[i]) <==> Lower(spelled[i]) == id[i] && IsLowerHex(id[i])
    {
      DigitIsSpelled(spelled[i], id[i]);
    }
    hide Lower;
    hide IsLowerHex;
    hide SpellsDigit;
    if |spelled| == |id| == 16 && forall i :: 0 <= i < 16 ==> SpellsDigit(spelled[i], id[i]) {
      assert LowerAll(spelled) == id;
    }
  }

  /** A file is read as an id exactly if it holds sixteen hexadecimal digits, of either
      case and with any white space around them, that spell it. */
  lemma ReadsExactly(text: string, id: string)
    ensures Holds(Readable(text), id) <==> SpellsId(text, id)
  {
    hide IsWhiteSpace;
    hide SpellsDigit;
    hide IsValid;
    hide Trim;
    hide IsBlank;
    IdIsSpelled(Trim(text, IsWhiteSpace), id);
    if Holds(Readable(text), id) {
      var before, after := BlankEnds(text, IsWhiteSpace);
      assert text == before + Trim(text, IsWhiteSpace) + after;
    }
    if before, spelled, after :|
      && text == before + spelled + after && IsBlank(before, IsWhiteSpace) && IsBlank(after, IsWhiteSpace)
      && |spelled| == |id| == 16 && forall i :: 0 <= i < 16 ==> SpellsDigit(spelled[i], id[i])
    {
      SpelledReads(before, spelled, after, id);
    }
  }

  lemma SpelledReads(before: string, spelled: string, after: string, id: string)
    requires IsBlank(before, IsWhiteSpace) && IsBlank(after, IsWhiteSpace)
    requires |spelled| == |id| == 16 && forall i :: 0 <= i < 16 ==> SpellsDigit(spelled[i], id[i])
    ensures Holds(Readable(before + spelled + after), id)
  {
    hide IsWhiteSpace;
    hide SpellsDigit;
    hide IsValid;
    hide Trim;
    hide IsBlank;
    DigitIsSpelled(spelled[0], id[0]);
    DigitIsSpelled(spelled[15], id[15]);
    TrimBlanks(before, spelled, after, IsWhiteSpace);
    IdIsSpelled(spelled, id);
  }

  lemma HexIsPlain(c: char)
    requires IsLowerHex(c)
    ensures !IsWhiteSpace(c) && Lower(c) == c
  {
  }

  // ---------- processes racing on one folder ----------

  datatype Phase =
    | Starting | Creating | Rereading | Replacing | Renaming
    | Returned(id: string) | Failed(error: IdError)

  /** The folder, and how far each process is. The name of the temporary file is
      the same for all processes. */
  datatype Race = Race(file: IdFile, tmp: Option<string>, phases: seq<Phase>)

  function Goto(r: Race, i: nat, phase: Phase): Race
    requires i < |r.phases|
  {
    r.(phases := r.phases[i := phase])
  }

  /** Process i, whose own new id is `id`, makes its next step. */
  function Step(r: Race, i: nat, id: string): (after: Race)
    requires i < |r.phases|
    ensures |after.phases| == |r.phases|
  {
    match r.phases[i]
    case Starting =>
      (match ReadId(r.file)
       case Failure(e) => Goto(r, i, Failed(e))
       case Success(Some(found)) => Goto(r, i, Returned(found))
       case Success(None) => Goto(r, i, Creating))
    case Creating =>
      if r.file.Absent? then Goto(r, i, Returned(id)).(file := Readable(id)) else Goto(r, i, Rereading)
    case Rereading =>
      (match ReadId(r.file)
       case Failure(e) => Goto(r, i, Failed(e))
       case Success(Some(found)) => Goto(r, i, Returned(found))
       case Success(None) => Goto(r, i, Replacing))
    case Replacing => Goto(r, i, Renaming).(tmp := Some(id))
    case Renaming =>
      if r.tmp.Some? then Goto(r, i, Returned(id)).(file := Readable(r.tmp.value), tmp := None)
      else Goto(r, i, Failed(TmpIsGone))
    case _ => r
  }

  /** Whose turn it is, turn by turn. */
  predicate IsSchedule(schedule: seq<nat>, n: nat) {
    forall k :: 0 <= k < |schedule| ==> schedule[k] < n
  }

  function Run(r: Race, ids: seq<string>, schedule: seq<nat>): (after: Race)
    requires |ids| == |r.phases| && IsSchedule(schedule, |ids|)
    ensures |after.phases| == |r.phases|
    decreases |schedule|
  {
    if schedule == [] then r else Run(Step(r, schedule[0], ids[schedule[0]]), ids, schedule[1..])
  }

  function AtStart(file: IdFile, tmp: Option<string>, n: nat): Race {
    Race(file, tmp, seq(n, _ => Starting))
  }

  predicate AllValid(ids: seq<string>) {
    forall i :: 0 <= i < |ids| ==> IsValid(ids[i])
  }

  /** Nobody returned before there was an id; then everybody returns that one. */
  ghost predicate Settled(r: Race) {
    || (r.file.Absent? && forall i :: 0 <= i < |r.phases| ==> r.phases[i].Starting? || r.phases[i].Creating?)
    || (exists id :: SettledOn(r, id))
  }

  predicate SettledOn(r: Race, id: string) {
    && Holds(r.file, id)
    && forall i :: 0 <= i < |r.phases| ==>
         var phase := r.phases[i]; phase.Starting? || phase.Creating? || phase.Rereading? || phase == Returned(id)
  }

  lemma StepKeepsSettled(r: Race, i: nat, id: string)
    requires i < |r.phases| && IsValid(id) && Settled(r)
    ensures Settled(Step(r, i, id))
    ensures forall v :: Holds(r.file, v) ==> Step(r, i, id).file == r.file
  {
    hide ReadId;
    var after := Step(r, i, id);
    if r.file.Absent? {
      AbsentHasNoId(r.file);
      if r.phases[i].Creating? {
        ValidReadsBack(id);
        assert SettledOn(after, id);
      }
    } else {
      var v :| SettledOn(r, v);
      assert SettledOn(after, v);
    }
  }

  lemma AbsentHasNoId(file: IdFile)
    requires file.Absent?
    ensures ReadId(file) == Success(None)
  {
  }

  lemma {:induction false} RunKeepsSettled(r: Race, ids: seq<string>, schedule: seq<nat>)
    requires |ids| == |r.phases| && IsSchedule(schedule, |ids|) && AllValid(ids) && Settled(r)
    ensures Settled(Run(r, ids, schedule))
    ensures forall v :: Holds(r.file, v) ==> Run(r, ids, schedule).file == r.file
    decreases |schedule|
  {
    hide Settled;
    hide Holds;
    hide Step;
    if schedule != [] {
      StepKeepsSettled(r, schedule[0], ids[schedule[0]]);
      RunKeepsSettled(Step(r, schedule[0], ids[schedule[0]]), ids, schedule[1..]);
    }
  }

  /** A folder the protocol is safe on, however many processes start at once. */
  predicate IsClean(file: IdFile) {
    file.Absent? || (file.Readable? && !IsDamaged(file))
  }

  /** Any number of processes, any interleaving, any left-over temporary file: on
      a missing or valid id file nobody fails, all that return return the one id
      the file holds, and every later start adopts that id and leaves it there. */
  lemma AllAgree(file: IdFile, tmp: Option<string>, ids: seq<string>, schedule: seq<nat>)
    requires IsClean(file) && AllValid(ids) && IsSchedule(schedule, |ids|)
    ensures var after := Run(AtStart(file, tmp, |ids|), ids, schedule);
            && (forall i :: 0 <= i < |ids| ==> !after.phases[i].Failed?)
            && (forall i :: 0 <= i < |ids| && after.phases[i].Returned? ==> Holds(after.file, after.phases[i].id))
            && (file.Readable? ==> after.file == file)
            && (forall i, own :: 0 <= i < |ids| && after.phases[i].Returned? ==>
                  Load(after.file, own) == (after.file, Success(after.phases[i].id)))
  {
    var start := AtStart(file, tmp, |ids|);
    if file.Readable? {
      var id := ReadId(file).value.value;
      assert SettledOn(start, id);
    }
    RunKeepsSettled(start, ids, schedule);
  }

  // ---------- one process on its own ----------

  /** What one start does to the folder and returns; `own` is its new id. */
  function Load(file: IdFile, own: string): (IdFile, Result<string, IdError>) {
    match ReadId(file)
    case Failure(e) => (file, Failure(e))
    case Success(Some(id)) => (file, Success(id))
    case Success(None) => (Readable(own), Success(own))
  }

  /** Only the process's own steps. */
  function Alone(n: nat): (schedule: seq<nat>)
    ensures IsSchedule(schedule, 1)
  {
    seq(n, _ => 0)
  }

  lemma RunOne(r: Race, own: string, n: nat)
    requires |r.phases| == 1 && n > 0
    ensures Run(r, [own], Alone(n)) == Run(Step(r, 0, own), [own], Alone(n - 1))
  {
    assert Alone(n)[1..] == Alone(n - 1);
  }

  /** A process that nobody disturbs is done after five steps, whatever the file
      holds. */
  lemma AloneIsLoad(file: IdFile, tmp: Option<string>, own: string)
    ensures var after := Run(AtStart(file, tmp, 1), [own], Alone(5));
            && after.file == Load(file, own).0
            && after.phases[0] == match Load(file, own).1 case Success(id) => Returned(id) case Failure(e) => Failed(e)
  {
    hide ReadId;
    var r0 := AtStart(file, tmp, 1);
    var r1 := Step(r0, 0, own);
    var r2 := Step(r1, 0, own);
    var r3 := Step(r2, 0, own);
    var r4 := Step(r3, 0, own);
    RunOne(r0, own, 5);
    RunOne(r1, own, 4);
    RunOne(r2, own, 3);
    RunOne(r3, own, 2);
    RunOne(r4, own, 1);
    AbsentHasNoId(Absent);
  }

  /** A lone process repairs a damaged file once; from then on the id is stable. */
  lemma RepairsOnce(file: IdFile, own: string, later: string)
    requires IsValid(own) && !file.NotText?
    ensures var (repaired, r) := Load(file, own);
            && r.Success? && IsValid(r.value) && Holds(repaired, r.value)
            && Load(repaired, later) == (repaired, r)
            && (IsDamaged(file) || file.Absent? ==> r.value == own)
  {
    ValidReadsBack(own);
  }

  // ---------- exactly when they agree ----------

  /** Two processes never return different ids. */
  ghost predicate NeverDisagree(file: IdFile, ids: seq<string>) {
    forall tmp, schedule, i, j :: IsSchedule(schedule, |ids|) && 0 <= i < |ids| && 0 <= j < |ids| ==>
      SameId(Run(AtStart(file, tmp, |ids|), ids, schedule), i, j)
  }

  predicate SameId(r: Race, i: nat, j: nat)
    requires i < |r.phases| && j < |r.phases|
  {
    r.phases[i].Returned? && r.phases[j].Returned? ==> r.phases[i] == r.phases[j]
  }

  /** With different new ids, the processes are sure to agree if and only if there
      is just one of them or the file is not a damaged one. */
  lemma AgreementIsExact(file: IdFile, ids: seq<string>)
    requires AllValid(ids) && (|ids| > 1 ==> ids[0] != ids[1])
    ensures NeverDisagree(file, ids) <==> |ids| <= 1 || !IsDamaged(file)
  {
    if |ids| > 1 && IsDamaged(file) {
      DamagedDisagree(file, ids);
    } else {
      forall tmp, schedule, i, j | IsSchedule(schedule, |ids|) && 0 <= i < |ids| && 0 <= j < |ids|
        ensures SameId(Run(AtStart(file, tmp, |ids|), ids, schedule), i, j)
      {
        if IsDamaged(file) {
          assert i == j;
        } else if file.NotText? {
          NoTextNoId(AtStart(file, tmp, |ids|), ids, schedule);
        } else {
          AllAgree(file, tmp, ids, schedule);
        }
      }
    }
  }

  /** Bytes that are not text are never repaired: nobody gets an id. */
  lemma {:induction false} NoTextNoId(r: Race, ids: seq<string>, schedule: seq<nat>)
    requires |ids| == |r.phases| && IsSchedule(schedule, |ids|) && r.file.NotText?
    requires forall i :: 0 <= i < |ids| ==> r.phases[i] == Starting || r.phases[i] == Failed(Unreadable)
    ensures var after := Run(r, ids, schedule);
            && after.file == r.file
            && forall i :: 0 <= i < |ids| ==> after.phases[i] == Starting || after.phases[i] == Failed(Unreadable)
    decreases |schedule|
  {
    if schedule != [] {
      NoTextNoId(Step(r, schedule[0], ids[schedule[0]]), ids, schedule[1..]);
    }
  }

  /** Both see the damage; then one replaces the file, and after it the other. */
  const BOTH_REPLACE: seq<nat> := [0, 0] + ([1, 1] + [])

  const BOTH_REPAIR: seq<nat> := [0, 0, 0] + ([1, 1, 1] + BOTH_REPLACE)

  lemma RunNext(r: Race, ids: seq<string>, i: nat, rest: seq<nat>)
    requires |ids| == |r.phases| && i < |ids| && IsSchedule(rest, |ids|)
    ensures Run(r, ids, [i] + rest) == Run(Step(r, i, ids[i]), ids, rest)
  {
    assert ([i] + rest)[1..] == rest;
  }

  function SeesDamage(r: Race, i: nat, id: string): Race
    requires i < |r.phases|
  {
    Step(Step(Step(r, i, id), i, id), i, id)
  }

  function Replaces(r: Race, i: nat, id: string): Race
    requires i < |r.phases|
  {
    Step(Step(r, i, id), i, id)
  }

  lemma RunTwice(r: Race, ids: seq<string>, i: nat, rest: seq<nat>)
    requires |ids| == |r.phases| && i < |ids| && IsSchedule(rest, |ids|)
    ensures Run(r, ids, [i, i] + rest) == Run(Replaces(r, i, ids[i]), ids, rest)
  {
    hide Step;
    hide Run;
    RunNext(r, ids, i, [i] + rest);
    RunNext(Step(r, i, ids[i]), ids, i, rest);
    assert [i, i] + rest == [i] + ([i] + rest);
  }

  lemma RunThrice(r: Race, ids: seq<string>, i: nat, rest: seq<nat>)
    requires |ids| == |r.phases| && i < |ids| && IsSchedule(rest, |ids|)
    ensures Run(r, ids, [i, i, i] + rest) == Run(SeesDamage(r, i, ids[i]), ids, rest)
  {
    hide Step;
    hide Run;
    RunNext(r, ids, i, [i, i] + rest);
    RunTwice(Step(r, i, ids[i]), ids, i, rest);
    assert [i, i, i] + rest == [i] + ([i, i] + rest);
  }

  lemma SeesDamageIs(r: Race, i: nat, id: string)
    requires i < |r.phases| && r.phases[i] == Starting && IsDamaged(r.file)
    ensures SeesDamage(r, i, id) == r.(phases := r.phases[i := Replacing])
  {
    hide ReadId;
  }

  lemma ReplacesIs(r: Race, i: nat, id: string)
    requires i < |r.phases| && r.phases[i] == Replacing
    ensures Replaces(r, i, id) == Race(Readable(id), None, r.phases[i := Returned(id)])
  {
    hide ReadId;
  }

  lemma BothSee(r: Race, ids: seq<string>)
    requires |ids| == |r.phases| && |ids| > 1 && IsDamaged(r.file)
    requires r.phases[0] == Starting && r.phases[1] == Starting
    ensures IsSchedule(BOTH_REPLACE, |ids|) && IsSchedule(BOTH_REPAIR, |ids|)
    ensures Run(r, ids, BOTH_REPAIR) ==
            Run(r.(phases := r.phases[0 := Replacing][1 := Replacing]), ids, BOTH_REPLACE)
  {
    hide IsDamaged;
    hide SeesDamage;
    hide Run;
    RunThrice(r, ids, 0, [1, 1, 1] + BOTH_REPLACE);
    SeesDamageIs(r, 0, ids[0]);
    var r3 := r.(phases := r.phases[0 := Replacing]);
    RunThrice(r3, ids, 1, BOTH_REPLACE);
    SeesDamageIs(r3, 1, ids[1]);
  }

  lemma BothReplace(r: Race, ids: seq<string>)
    requires |ids| == |r.phases| && |ids| > 1
    requires r.phases[0] == Replacing && r.phases[1] == Replacing
    ensures IsSchedule(BOTH_REPLACE, |ids|)
    ensures var after := Run(r, ids, BOTH_REPLACE);
            after.phases[0] == Returned(ids[0]) && after.phases[1] == Returned(ids[1])
  {
    hide Replaces;
    hide Run;
    RunTwice(r, ids, 0, [1, 1] + []);
    ReplacesIs(r, 0, ids[0]);
    var r2 := Replaces(r, 0, ids[0]);
    RunTwice(r2, ids, 1, []);
    ReplacesIs(r2, 1, ids[1]);
    RunsOut(Replaces(r2, 1, ids[1]), ids);
  }

  lemma DamagedDisagree(file: IdFile, ids: seq<string>)
    requires |ids| > 1 && ids[0] != ids[1] && IsDamaged(file)
    ensures IsSchedule(BOTH_REPAIR, |ids|)
    ensures var after := Run(AtStart(file, None, |ids|), ids, BOTH_REPAIR);
            after.phases[0] == Returned(ids[0]) && after.phases[1] == Returned(ids[1]) && !SameId(after, 0, 1)
  {
    hide IsDamaged;
    hide Run;
    var r := AtStart(file, None, |ids|);
    BothSee(r, ids);
    BothReplace(r.(phases := r.phases[0 := Replacing][1 := Replacing]), ids);
  }

  lemma RunsOut(r: Race, ids: seq<string>)
    requires |ids| == |r.phases|
    ensures Run(r, ids, []) == r
  {
  }

  // ---------- everybody gets done ----------

  function StepsLeft(phase: Phase): nat {
    match phase
    case Starting => 5
    case Creating => 4
    case Rereading => 3
    case Replacing => 2
    case Renaming => 1
    case _ => 0
  }

  function Turns(schedule: seq<nat>, i: nat): nat {
    if schedule == [] then 0 else (if schedule[0] == i then 1 else 0) + Turns(schedule[1..], i)
  }

  /** No process can be held up by the others: five turns of its own are enough. */
  lemma {:induction false} FiveTurnsAreEnough(r: Race, ids: seq<string>, schedule: seq<nat>, i: nat)
    requires |ids| == |r.phases| && IsSchedule(schedule, |ids|) && i < |ids|
    requires Turns(schedule, i) >= StepsLeft(r.phases[i])
    ensures var phase := Run(r, ids, schedule).phases[i]; phase.Returned? || phase.Failed?
    decreases |schedule|
  {
    hide ReadId;
    if schedule != [] {
      FiveTurnsAreEnough(Step(r, schedule[0], ids[schedule[0]]), ids, schedule[1..], i);
    }
  }

  // ---------- the folder in place ----------

  class IdFolder {
    var file: IdFile
    var tmp: Option<string>

    constructor (file: IdFile, tmp: Option<string>)
      ensures this.file == file && this.tmp == tmp
    {
      this.file, this.tmp := file, tmp;
    }

    /** A start with the folder to itself. */
    method LoadOrCreate(own: string) returns (r: Result<string, IdError>)
      modifies this
      ensures (file, r) == Load(old(file), own)
      ensures r.Success? && IsValid(own) ==> Holds(file, r.value)
      ensures tmp == if IsDamaged(old(file)) then None else old(tmp)
    {
      var first := ReadId(file);
      if first.Failure? {
        return Failure(first.error);
      }
      if first.value.Some? {
        return Success(first.value.value);
      }
      if file.Absent? {
        file := Readable(own);
        if IsValid(own) { ValidReadsBack(own); }
        return Success(own);
      }
      // nobody ever reads a half-written id: it is complete before the rename
      tmp := Some(own);
      file, tmp := Readable(tmp.value), None;
      if IsValid(own) { ValidReadsBack(own); }
      return Success(own);
    }
  }
}
