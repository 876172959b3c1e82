/** The failed-audit counts of a read-only server across restarts, key changes and clears, and the
    crash-safe replacement of the file they are kept in. Source: server/src/audit.rs. */
module AuditLedger {
  import opened Wrappers
  import opened Seqs
  import opened CountFile

  const WRAP: nat := 0x1_0000_0000_0000_0000

  // ------------------------------------------------------------- counts ----

  /** The first entry of an episode decides. */
  function Lookup(entries: seq<Entry>, episode: string): Option<nat> {
    if entries == [] then None
    else if entries[0].key == episode then Some(entries[0].count)
    else Lookup(entries[1..], episode)
  }

  function CountOf(entries: seq<Entry>, episode: string): nat {
    if Lookup(entries, episode).Some? then Lookup(entries, episode).value else 0
  }

  /** The entries of other episodes, without the zero ones if `nonZero`. */
  function Others(entries: seq<Entry>, episode: string, nonZero: bool): (r: seq<Entry>)
    ensures forall i | 0 <= i < |r| :: r[i] in entries && r[i].key != episode
  {
    if entries == [] then []
    else
      (if entries[0].key != episode && (nonZero ==> entries[0].count > 0) then [entries[0]] else [])
      + Others(entries[1..], episode, nonZero)
  }

  /** What was understood of the count file, if there is one. */
  function Kept(file: Option<string>): seq<Entry> {
    if file.None? then [] else Parse(file.value).entries
  }

  ghost predicate Distinct(entries: seq<Entry>) {
    forall i, j | 0 <= i < j < |entries| :: entries[i].key != entries[j].key
  }

  ghost predicate Valid(entries: seq<Entry>) {
    forall i | 0 <= i < |entries| :: ValidEntry(entries[i])
  }

  lemma OthersKeep(entries: seq<Entry>, episode: string, nonZero: bool)
    requires Distinct(entries)
    ensures Distinct(Others(entries, episode, nonZero)) && Lookup(Others(entries, episode, nonZero), episode).None?
    ensures forall e | e != episode :: CountOf(Others(entries, episode, nonZero), e) == CountOf(entries, e)
  {
    AbsentKey(Others(entries, episode, nonZero), episode);
    OthersDistinct(entries, episode, nonZero);
    forall e | e != episode ensures CountOf(Others(entries, episode, nonZero), e) == CountOf(entries, e) {
      OthersCount(entries, episode, nonZero, e);
    }
  }

  lemma {:induction false} OthersDistinct(entries: seq<Entry>, episode: string, nonZero: bool)
    requires Distinct(entries)
    ensures Distinct(Others(entries, episode, nonZero))
  {
    if entries != [] {
      var rest := Others(entries[1..], episode, nonZero);
      OthersFirst(entries, episode, nonZero);
      hide Others;
      OthersDistinct(entries[1..], episode, nonZero);
      DistinctFirst(entries[0], rest);
    }
  }

  lemma {:induction false} OthersCount(entries: seq<Entry>, episode: string, nonZero: bool, e: string)
    requires Distinct(entries) && e != episode
    ensures CountOf(Others(entries, episode, nonZero), e) == CountOf(entries, e)
  {
    if entries != [] {
      var first, rest := entries[0], Others(entries[1..], episode, nonZero);
      OthersFirst(entries, episode, nonZero);
      LookupFirst(first, rest, e);
      LookupFirst(first, entries[1..], e);
      assert entries == [first] + entries[1..];
      hide Others, Lookup;
      OthersCount(entries[1..], episode, nonZero, e);
      AbsentKey(rest, first.key);
    }
  }

  lemma OthersFirst(entries: seq<Entry>, episode: string, nonZero: bool)
    requires Distinct(entries) && entries != []
    ensures var first, rest := entries[0], Others(entries[1..], episode, nonZero);
            && Others(entries, episode, nonZero)
               == (if first.key != episode && (nonZero ==> first.count > 0) then [first] + rest else rest)
            && (forall i | 0 <= i < |rest| :: rest[i].key != first.key)
  {
    var rest := Others(entries[1..], episode, nonZero);
    assert [] + rest == rest;
  }

  lemma DistinctFirst(first: Entry, rest: seq<Entry>)
    requires Distinct(rest) && forall i | 0 <= i < |rest| :: rest[i].key != first.key
    ensures Distinct([first] + rest)
  {
  }

  lemma LookupFirst(first: Entry, rest: seq<Entry>, e: string)
    ensures Lookup([first] + rest, e) == if e == first.key then Some(first.count) else Lookup(rest, e)
  {
    assert ([first] + rest)[1..] == rest;
  }

  lemma {:induction false} AbsentKey(entries: seq<Entry>, key: string)
    requires forall i | 0 <= i < |entries| :: entries[i].key != key
    ensures Lookup(entries, key).None?
  {
    if entries != [] {
      AbsentKey(entries[1..], key);
    }
  }

  lemma {:induction false} LookupLast(entries: seq<Entry>, last: Entry, e: string)
    requires Lookup(entries, last.key).None?
    ensures Lookup(entries + [last], e) == if e == last.key then Some(last.count) else Lookup(entries, e)
  {
    if entries != [] {
      LookupLast(entries[1..], last, e);
      assert (entries + [last])[1..] == entries[1..] + [last];
    }
  }

  // -------------------------------------------------------------- ledger ----

  /** What a read-only server holds in memory. */
  datatype Memory = Memory(episode: string, count: nat, kept: seq<Entry>) {
    function Entries(): seq<Entry> { kept + [Entry(episode, count)] }
  }

  /** The count file, and the memory of the server while it runs read-only. */
  datatype Ledger = Ledger(file: Option<string>, memory: Option<Memory>)

  /** A file that is not understood is replaced by what is; nothing else changes it. */
  function SetAside(file: Option<string>): Option<string> {
    if file.Some? && Parse(file.value).Corrupt? then Some(Print(Kept(file))) else file
  }

  /** Where a call was killed: before its first write, after a corrupt file was replaced, after
      its last write; `Never` returns. */
  datatype Kill = Never | Early | AfterAside | Late

  /** `FailUnwritten`: the count goes up in memory, its write fails, and the server goes on. */
  datatype Step =
    | StartReadOnly(episode: string, kill: Kill)
    | StartNormal
    | Stop
    | Fail(kill: Kill)
    | FailUnwritten
    | Clear(episode: string, kill: Kill)

  function Opened(file: Option<string>, episode: string): Memory {
    Memory(episode, CountOf(Kept(file), episode), Others(Kept(file), episode, true))
  }

  function Cleared(file: Option<string>, episode: string): Option<string> {
    var rest := Others(Kept(file), episode, false);
    if file.None? || rest == [] then None
    else if Lookup(Kept(file), episode).Some? then Some(Print(rest))
    else SetAside(file)
  }

  /** A wrapping increment, as `u64` has it in a release build. */
  function Counted(m: Memory): Memory { m.(count := (m.count + 1) % WRAP) }

  /** One process at a time has the data directory: a command clears only while no server runs. */
  predicate Enabled(l: Ledger, w: Step) {
    match w
    case StartReadOnly(episode, _) => l.memory.None? && ValidKey(episode)
    case StartNormal => l.memory.None?
    case Stop => true
    case Fail(_) => true
    case FailUnwritten => true
    case Clear(_, _) => l.memory.None?
  }

  function Apply(l: Ledger, w: Step): Ledger {
    match w
    case StartReadOnly(episode, kill) =>
      var begun := Opened(l.file, episode);
      if kill == Early then l
      else if kill == AfterAside then Ledger(SetAside(l.file), None)
      else Ledger(Some(Print(begun.Entries())), if kill == Late then None else Some(begun))
    case StartNormal => l
    case Stop => l.(memory := None)
    case Fail(kill) =>
      if l.memory.None? then l
      else
        var m := Counted(l.memory.value);
        if kill == Early || kill == AfterAside then l.(memory := None)
        else Ledger(Some(Print(m.Entries())), if kill == Late then None else Some(m))
    case FailUnwritten => if l.memory.Some? then l.(memory := Some(Counted(l.memory.value))) else l
    case Clear(episode, kill) =>
      if kill == Early then l
      else if kill == AfterAside then Ledger(SetAside(l.file), None)
      else Ledger(Cleared(l.file, episode), None)
  }

  /** What the count file can be once a call is killed anywhere in it. */
  function Instants(l: Ledger, w: Step): set<Option<string>>
    requires w.StartReadOnly? || w.Fail? || w.Clear?
  {
    {Apply(l, w.(kill := Early)).file, Apply(l, w.(kill := AfterAside)).file, Apply(l, w.(kill := Late)).file}
  }

  /** The memory of the server as it last reached the file. */
  function OnFile(l: Ledger): Memory
    requires l.memory.Some?
  {
    l.memory.value.(count := CountOf(Kept(l.file), l.memory.value.episode))
  }

  /** Every state the code can be in: distinct episodes, and in memory what the file says but for
      the running episode's own count. */
  ghost predicate Consistent(l: Ledger) {
    && Distinct(Kept(l.file))
    && (l.memory.Some? ==>
          && Distinct(l.memory.value.Entries()) && Valid(l.memory.value.Entries())
          && l.file == Some(Print(OnFile(l).Entries())))
  }

  lemma KeptIsValid(file: Option<string>)
    ensures Valid(Kept(file))
  {
    if file.Some? {
      UnderstoodAreValid(Lines(file.value));
    }
  }

  lemma PrintedIsKept(entries: seq<Entry>)
    requires Valid(entries)
    ensures Kept(Some(Print(entries))) == entries
  {
    PrintReadsBack(entries, seq(|entries|, _ => false));
  }

  lemma AsideKeepsAll(file: Option<string>)
    ensures Kept(SetAside(file)) == Kept(file)
  {
    KeptIsValid(file);
    PrintedIsKept(Kept(file));
  }

  lemma OpenedCounts(file: Option<string>, episode: string)
    requires Distinct(Kept(file)) && ValidKey(episode)
    ensures var m := Opened(file, episode);
            && Valid(m.Entries()) && Distinct(m.Entries()) && Lookup(m.kept, episode).None?
            && forall e :: CountOf(m.Entries(), e) == CountOf(Kept(file), e)
  {
    hide Parse, Lookup, Others;
    KeptIsValid(file);
    CountIsBounded(Kept(file), episode);
    OthersKeep(Kept(file), episode, true);
    var m := Opened(file, episode);
    forall e ensures CountOf(m.Entries(), e) == CountOf(Kept(file), e) {
      LookupLast(m.kept, Entry(episode, m.count), e);
    }
  }

  lemma {:induction false} CountIsBounded(entries: seq<Entry>, e: string)
    requires Valid(entries)
    ensures CountOf(entries, e) <= U64_MAX
  {
    if entries != [] {
      assert ValidEntry(entries[0]);
      CountIsBounded(entries[1..], e);
    }
  }

  lemma LastIsFound(m: Memory)
    requires Distinct(m.Entries())
    ensures CountOf(m.Entries(), m.episode) == m.count
  {
    assert m.Entries()[|m.kept|].key == m.episode;
    assert forall i | 0 <= i < |m.kept| :: m.Entries()[i] == m.kept[i];
    AbsentKey(m.kept, m.episode);
    LookupLast(m.kept, Entry(m.episode, m.count), m.episode);
  }

  /** Another count for the running episode changes no other's. */
  lemma Recount(m: Memory, count: nat)
    requires Distinct(m.Entries()) && Valid(m.Entries()) && count <= U64_MAX
    ensures var n := m.(count := count); Distinct(n.Entries()) && Valid(n.Entries())
    ensures forall e :: CountOf(m.(count := count).Entries(), e) == if e == m.episode then count else CountOf(m.Entries(), e)
  {
    var all, last := m.Entries(), Entry(m.episode, m.count);
    assert all[|m.kept|] == last;
    assert forall i | 0 <= i < |m.kept| :: all[i] == m.kept[i];
    assert ValidEntry(all[|m.kept|]);
    AbsentKey(m.kept, m.episode);
    forall e ensures CountOf(m.(count := count).Entries(), e) == if e == m.episode then count else CountOf(all, e) {
      LookupLast(m.kept, last, e);
      LookupLast(m.kept, Entry(m.episode, count), e);
    }
  }

  lemma FileHoldsMemory(l: Ledger)
    requires Consistent(l) && l.memory.Some?
    ensures Kept(l.file) == OnFile(l).Entries()
    ensures forall e | e != l.memory.value.episode :: CountOf(Kept(l.file), e) == CountOf(l.memory.value.Entries(), e)
  {
    hide Parse, Print, CountOf, Distinct, Valid, Kept;
    KeptIsValid(l.file);
    CountIsBounded(Kept(l.file), l.memory.value.episode);
    Recount(l.memory.value, OnFile(l).count);
    PrintedIsKept(OnFile(l).Entries());
  }

  /** Written out, a memory is on file exactly. */
  lemma WrittenIsKept(m: Memory, memory: Option<Memory>)
    requires Distinct(m.Entries()) && Valid(m.Entries()) && (memory.Some? ==> memory.value == m)
    ensures var l := Ledger(Some(Print(m.Entries())), memory);
            Kept(l.file) == m.Entries() && CountOf(m.Entries(), m.episode) == m.count && Consistent(l)
  {
    hide Parse, Print, CountOf, Distinct, Valid, Kept;
    PrintedIsKept(m.Entries());
    LastIsFound(m);
  }

  lemma CountedCounts(m: Memory)
    requires Distinct(m.Entries()) && Valid(m.Entries())
    ensures Distinct(Counted(m).Entries()) && Valid(Counted(m).Entries())
    ensures forall e :: CountOf(Counted(m).Entries(), e)
                        == if e == m.episode then (CountOf(m.Entries(), e) + 1) % WRAP else CountOf(m.Entries(), e)
  {
    hide CountOf, Distinct, Valid;
    Recount(m, (m.count + 1) % WRAP);
    LastIsFound(m);
  }

  lemma ClearedCounts(file: Option<string>, episode: string)
    requires Distinct(Kept(file))
    ensures Distinct(Kept(Cleared(file, episode)))
    ensures forall e :: CountOf(Kept(Cleared(file, episode)), e) == if e == episode then 0 else CountOf(Kept(file), e)
  {
    KeptIsValid(file);
    AsideKeepsAll(file);
    OthersKeep(Kept(file), episode, false);
    var rest := Others(Kept(file), episode, false);
    assert Valid(rest) by {
      forall i | 0 <= i < |rest| ensures ValidEntry(rest[i]) {
        assert rest[i] in Kept(file);
      }
    }
    PrintedIsKept(rest);
  }

  // ------------------------------------------------------- runs of the ledger ----

  /** The failures of an episode since its last clear: those on file, and those a running server
      has counted and not written. */
  datatype Told = Told(written: nat, pending: nat)

  predicate RunsFor(l: Ledger, e: string) { l.memory.Some? && l.memory.value.episode == e }

  /** A failure that is written takes the pending ones with it; a stop or a kill loses them. */
  function Next(l: Ledger, w: Step, e: string, t: Told): Told {
    match w
    case Fail(kill) =>
      if !RunsFor(l, e) then t
      else if kill == Early || kill == AfterAside then Told(t.written, 0)
      else Told((t.written + t.pending + 1) % WRAP, 0)
    case FailUnwritten => if RunsFor(l, e) then Told(t.written, t.pending + 1) else t
    case Stop => Told(t.written, 0)
    case Clear(episode, kill) => if e == episode && kill != Early && kill != AfterAside then Told(0, 0) else t
    case _ => t
  }

  /** The count of an episode as the running server has it, or else as the file does. */
  function Current(l: Ledger, e: string): nat {
    if RunsFor(l, e) then l.memory.value.count else CountOf(Kept(l.file), e)
  }

  ghost predicate Agrees(l: Ledger, e: string, t: Told) {
    CountOf(Kept(l.file), e) == t.written && Current(l, e) == (t.written + t.pending) % WRAP
  }

  lemma StartCounts(l: Ledger, w: Step)
    requires Consistent(l) && Enabled(l, w) && w.StartReadOnly?
    ensures Consistent(Apply(l, w))
    ensures forall e :: CountOf(Kept(Apply(l, w).file), e) == Current(Apply(l, w), e) == Current(l, e)
  {
    hide Parse, Print, CountOf, Others, Distinct, Valid, ValidKey, Opened, Consistent;
    var begun := Opened(l.file, w.episode);
    assert Distinct(Kept(l.file)) by { FileIsDistinct(l); }
    OpenedCounts(l.file, w.episode);
    AsideKeepsAll(l.file);
    WrittenIsKept(begun, Some(begun));
    WrittenIsKept(begun, None);
    NoMemory(l);
    NoMemory(Ledger(SetAside(l.file), None));
    assert begun.episode == w.episode by { OpenedIsFor(l.file, w.episode); }
  }

  lemma FileIsDistinct(l: Ledger)
    requires Consistent(l)
    ensures Distinct(Kept(l.file))
  {
  }

  lemma NoMemory(l: Ledger)
    requires l.memory.None?
    ensures Consistent(l) <==> Distinct(Kept(l.file))
  {
  }

  lemma OpenedIsFor(file: Option<string>, episode: string)
    ensures Opened(file, episode).episode == episode
  {
  }

  lemma FailCounts(l: Ledger)
    requires Consistent(l) && l.memory.Some?
    ensures var m := Counted(l.memory.value);
            && Distinct(m.Entries()) && Valid(m.Entries())
            && forall e :: CountOf(m.Entries(), e) == if e == m.episode then m.count else CountOf(Kept(l.file), e)
  {
    hide Parse, Print, CountOf, Distinct, Valid, Kept;
    CountedCounts(l.memory.value);
    LastIsFound(Counted(l.memory.value));
    FileHoldsMemory(l);
  }

  lemma FileCountsFit(file: Option<string>)
    ensures forall e :: CountOf(Kept(file), e) < WRAP
  {
    hide CountOf, Kept;
    KeptIsValid(file);
    forall e ensures CountOf(Kept(file), e) < WRAP {
      CountIsBounded(Kept(file), e);
    }
  }

  lemma Wraps(n: nat)
    ensures (n % WRAP + 1) % WRAP == (n + 1) % WRAP
  {
  }

  lemma FailTells(l: Ledger, w: Step, e: string, t: Told)
    requires Consistent(l) && l.memory.Some? && (w == FailUnwritten || w == Fail(Never) || w == Fail(Late)) && Agrees(l, e, t)
    ensures Agrees(Apply(l, w), e, Next(l, w, e, t))
  {
    hide Parse, Print, CountOf, Distinct, Valid, Kept, Consistent;
    FailCounts(l);
    var m := Counted(l.memory.value);
    WrittenIsKept(m, Some(m));
    Wraps(t.written + t.pending);
  }

  lemma StepCounts(l: Ledger, w: Step)
    requires Consistent(l) && Enabled(l, w)
    ensures Consistent(Apply(l, w))
    ensures forall e, t | Agrees(l, e, t) :: Agrees(Apply(l, w), e, Next(l, w, e, t))
  {
    hide Parse, Print, CountOf, Others, Distinct, Valid, ValidEntry, ValidKey, Kept, Opened, Cleared, SetAside;
    FileCountsFit(l.file);
    match w {
      case StartReadOnly(episode, kill) =>
        StartCounts(l, w);
      case Fail(kill) =>
        if l.memory.Some? {
          FailCounts(l);
          WrittenIsKept(Counted(l.memory.value), Some(Counted(l.memory.value)));
          WrittenIsKept(Counted(l.memory.value), None);
          if kill == Never || kill == Late {
            forall e, t | Agrees(l, e, t) ensures Agrees(Apply(l, w), e, Next(l, w, e, t)) {
              FailTells(l, w, e, t);
            }
          }
        }
      case FailUnwritten =>
        if l.memory.Some? {
          FailCounts(l);
          forall e, t | Agrees(l, e, t) ensures Agrees(Apply(l, w), e, Next(l, w, e, t)) {
            FailTells(l, w, e, t);
          }
        }
      case Clear(episode, kill) =>
        ClearedCounts(l.file, episode);
        AsideKeepsAll(l.file);
      case _ =>
    }
  }

  function After(l: Ledger, ws: seq<Step>): Ledger {
    if ws == [] then l else Apply(After(l, ws[..|ws| - 1]), ws[|ws| - 1])
  }

  /** The failed writes counted under an episode since its last clear, on top of what the file
      and the memory said when the run began. */
  function Tally(l: Ledger, ws: seq<Step>, e: string): Told {
    if ws == [] then Told(CountOf(Kept(l.file), e), (Current(l, e) + WRAP - CountOf(Kept(l.file), e)) % WRAP)
    else Next(After(l, ws[..|ws| - 1]), ws[|ws| - 1], e, Tally(l, ws[..|ws| - 1], e))
  }

  ghost predicate Run(l: Ledger, ws: seq<Step>) {
    forall i | 0 <= i < |ws| :: Enabled(After(l, ws[..i]), ws[i])
  }

  lemma BeginsTallied(l: Ledger, e: string)
    requires Consistent(l)
    ensures Agrees(l, e, Tally(l, [], e))
  {
    hide Parse, Print, Distinct, Kept, CountOf;
    KeptIsValid(l.file);
    CountIsBounded(Kept(l.file), e);
    if RunsFor(l, e) {
      assert ValidEntry(l.memory.value.Entries()[|l.memory.value.kept|]);
    }
  }

  lemma {:induction false} TallyAgrees(l: Ledger, ws: seq<Step>)
    requires Consistent(l) && Run(l, ws)
    ensures Consistent(After(l, ws)) && forall e :: Agrees(After(l, ws), e, Tally(l, ws, e))
    decreases |ws|
  {
    hide Apply, Next, Consistent, Agrees;
    if ws == [] {
      forall e ensures Agrees(l, e, Tally(l, [], e)) {
        BeginsTallied(l, e);
      }
    } else {
      var n := |ws| - 1;
      assert forall i | 0 <= i < n :: ws[..n][..i] == ws[..i];
      assert Enabled(After(l, ws[..n]), ws[n]);
      TallyAgrees(l, ws[..n]);
      StepCounts(After(l, ws[..n]), ws[n]);
    }
  }

  /** Over every run of read-only starts, normal starts, failures whose write may fail, key changes
      and clears, each killed anywhere, the file's count of every episode is its tally and the
      running server's is that and what it has not yet written: nothing is counted for another, and
      nothing is lost but what a stop or a kill took from a server whose last writes had failed. */
  lemma CountsAreTheTally(l: Ledger, ws: seq<Step>)
    requires Consistent(l) && Run(l, ws)
    ensures Consistent(After(l, ws))
    ensures forall e :: var t := Tally(l, ws, e);
              CountOf(Kept(After(l, ws).file), e) == t.written && Current(After(l, ws), e) == (t.written + t.pending) % WRAP
  {
    hide Consistent, Tally, Current, CountOf, Kept, After, Run;
    TallyAgrees(l, ws);
    forall e ensures var t := Tally(l, ws, e);
               CountOf(Kept(After(l, ws).file), e) == t.written && Current(After(l, ws), e) == (t.written + t.pending) % WRAP {
      assert Agrees(After(l, ws), e, Tally(l, ws, e));
    }
  }

  /** Where no write fails while its server goes on, nothing is ever pending. */
  lemma {:induction false} NothingPending(l: Ledger, ws: seq<Step>, e: string)
    requires l.memory.None? && FailUnwritten !in ws
    ensures Tally(l, ws, e).pending == 0
    decreases |ws|
  {
    hide Apply, CountOf, Kept;
    if ws != [] {
      assert ws == ws[..|ws| - 1] + [ws[|ws| - 1]];
      NothingPending(l, ws[..|ws| - 1], e);
    } else {
      assert Current(l, e) == CountOf(Kept(l.file), e);
    }
  }

  // ------------------------------------------------------------- reporting ----

  datatype Reported = Number(n: nat) | NotReadable

  /** What `restore status` shows for an episode. */
  function Report(file: Option<string>, episode: string): Reported {
    if file.None? then Number(0)
    else
      var found := Lookup(Kept(file), episode);
      if found.Some? then Number(found.value)
      else if Parse(file.value).Clean? then Number(0) else NotReadable
  }

  /** A number reported is the tally, and an episode with a tally above zero is never reported as
      having none; only a file that was not understood can leave an episode unreadable. */
  lemma ReportIsTheTally(l: Ledger, ws: seq<Step>, e: string)
    requires Consistent(l) && Run(l, ws)
    ensures var r := Report(After(l, ws).file, e);
            && (r.Number? ==> r.n == Tally(l, ws, e).written)
            && (r.NotReadable? ==> Tally(l, ws, e).written == 0 && After(l, ws).file.Some? && Parse(After(l, ws).file.value).Corrupt?)
  {
    CountsAreTheTally(l, ws);
  }

  // ------------------------------------------------- the directory on disk ----

  /** The count file, its temporary file, and the files set aside. */
  datatype Name = CountName | TmpName | AsideName(ms: nat)
  type Files = map<Name, string>

  function TextOf(files: Files): Option<string> {
    if CountName in files then Some(files[CountName]) else None
  }

  /** Files that were set aside are still there, unchanged. */
  predicate KeepsAsides(before: Files, after: Files) {
    forall n | n in before && n.AsideName? :: n in after && after[n] == before[n]
  }

  /** Every state from `from` on has the count file as one of `texts`, and every old aside file. */
  ghost predicate OnlyTexts(states: seq<Files>, from: nat, before: Files, texts: set<Option<string>>) {
    forall i | from <= i < |states| :: TextOf(states[i]) in texts && KeepsAsides(before, states[i])
  }

  class Directory {
    var files: Files
    var memory: Option<Memory>
    /** Every state of the files so far: a kill leaves one of these. */
    ghost var states: seq<Files>

    ghost predicate Recorded()
      reads this
    {
      states != [] && states[|states| - 1] == files
    }

    ghost function View(): Ledger
      reads this
    {
      Ledger(TextOf(files), memory)
    }

    constructor (files: Files)
      ensures Recorded() && this.files == files && memory == None && states == [files]
    {
      this.files := files;
      memory := None;
      states := [files];
    }

    method Put(next: Files)
      requires Recorded()
      modifies this`files, this`states
      ensures Recorded() && files == next && states == old(states) + [next]
    {
      files := next;
      states := states + [next];
    }

    /** The temporary file, a line at a time; the count file is not touched. */
    method WriteTmp(entries: seq<Entry>)
      requires Recorded()
      modifies this`files, this`states
      ensures Recorded() && files == old(files)[TmpName := Print(entries)]
      ensures old(states) <= states && OnlyTexts(states, |old(states)|, old(files), {TextOf(old(files))})
    {
      Put(files - {TmpName});
      Put(files[TmpName := []]);
      var n := 0;
      while n < |entries|
        invariant n <= |entries| && Recorded() && old(states) <= states
        invariant TmpName in files && files == old(files)[TmpName := files[TmpName]]
        invariant files[TmpName] + Print(entries[n..]) == Print(entries)
        invariant OnlyTexts(states, |old(states)|, old(files), {TextOf(old(files))})
      {
        PrintMore(files[TmpName], entries, n);
        Put(files[TmpName := files[TmpName] + LineOf(entries[n]) + ['\n']]);
        n := n + 1;
      }
      assert entries[n..] == [] && Print(entries[n..]) == [];
      assert files[TmpName] + [] == files[TmpName];
    }

    /** `write_counts`: the count file is the old text or the new one at every instant. */
    method WriteCounts(entries: seq<Entry>)
      requires Recorded()
      modifies this`files, this`states
      ensures Recorded() && files == (old(files) - {TmpName})[CountName := Print(entries)]
      ensures old(states) <= states
      ensures OnlyTexts(states, |old(states)|, old(files), {TextOf(old(files)), Some(Print(entries))})
    {
      WriteTmp(entries);
      Put((files - {TmpName})[CountName := files[TmpName]]);
    }

    /** The next free aside name from `start` on. */
    method FreeName(start: nat) returns (ms: nat)
      ensures ms >= start && AsideName(ms) !in files
      ensures forall n | start <= n < ms :: AsideName(n) in files
    {
      ms := start;
      ghost var ahead := set n | n in files && n.AsideName? && n.ms >= start;
      while AsideName(ms) in files
        invariant ms >= start && forall n | start <= n < ms :: AsideName(n) in files
        invariant ahead == set n | n in files && n.AsideName? && n.ms >= ms
        decreases ahead
      {
        assert AsideName(ms) in ahead;
        ahead := ahead - {AsideName(ms)};
        ms := ms + 1;
      }
    }

    /** `set_aside`: no aside file is ever overwritten and the name search ends. With hard links
        the count file is the old or the new text at every instant; without them there is an
        instant without one. */
    method PutAside(valid: seq<Entry>, start: nat, hardLinks: bool) returns (ms: nat)
      requires Recorded() && CountName in files
      modifies this`files, this`states
      ensures Recorded() && old(states) <= states
      ensures ms >= start && AsideName(ms) !in old(files) && forall n | start <= n < ms :: AsideName(n) in old(files)
      ensures files == (old(files) - {TmpName})[AsideName(ms) := old(files)[CountName]][CountName := Print(valid)]
      ensures OnlyTexts(states, |old(states)|, old(files),
                        {TextOf(old(files)), Some(Print(valid))} + if hardLinks then {} else {None})
      ensures !hardLinks ==> exists i :: |old(states)| <= i < |states| && TextOf(states[i]) == None
    {
      hide Print;
      WriteTmp(valid);
      ms := FreeName(start);
      assert AsideName(ms) !in old(files);
      ghost var linked := |states|;
      LinkAside(ms, hardLinks);
      Put((files - {TmpName})[CountName := files[TmpName]]);
      assert TextOf(states[linked]) == if hardLinks then TextOf(old(files)) else None;
    }

    /** The old count file under its aside name: linked, or moved where links are not to be had. */
    method LinkAside(ms: nat, hardLinks: bool)
      requires Recorded() && CountName in files && AsideName(ms) !in files
      modifies this`files, this`states
      ensures Recorded() && states == old(states) + [files]
      ensures files == (if hardLinks then old(files) else old(files) - {CountName})[AsideName(ms) := old(files)[CountName]]
      ensures TextOf(files) == if hardLinks then TextOf(old(files)) else None
    {
      if hardLinks {
        Put(files[AsideName(ms) := files[CountName]]);
      } else {
        Put((files - {CountName})[AsideName(ms) := files[CountName]]);
      }
    }

    /** `parse_counts` of the count file, if there is one. */
    method ReadCounts() returns (c: Counts)
      ensures c == if CountName in files then Parse(files[CountName]) else Absent
    {
      if CountName in files {
        c := ParseCounts(files[CountName]);
      } else {
        c := Absent;
      }
    }

    /** The first read of a command: a file that is not understood is set aside. */
    method Understand(start: nat) returns (before: seq<Entry>, absent: bool)
      requires Recorded()
      modifies this`files, this`states
      ensures Recorded() && old(states) <= states
      ensures before == Kept(TextOf(old(files))) && (absent <==> CountName !in old(files))
      ensures TextOf(files) == SetAside(TextOf(old(files))) && KeepsAsides(old(files), files)
      ensures OnlyTexts(states, |old(states)|, old(files), {TextOf(old(files)), SetAside(TextOf(old(files)))})
    {
      var c := ReadCounts();
      match c {
        case Absent =>
          before, absent := [], true;
        case Clean(entries) =>
          before, absent := entries, false;
        case Corrupt(entries) =>
          before, absent := entries, false;
          var _ := PutAside(entries, start, true);
      }
    }

    /** `init_read_only_count` of a read-only start. Every instant is one of the ledger's kills. */
    method InitReadOnlyCount(episode: string, start: nat) returns (ok: bool)
      requires Recorded() && memory.None?
      modifies this
      ensures Recorded() && old(states) <= states && (ok <==> ValidKey(episode))
      ensures !ok ==> View() == old(View()) && states == old(states)
      ensures ok ==> View() == Apply(old(View()), StartReadOnly(episode, Never))
      ensures ok ==> OnlyTexts(states, |old(states)|, old(files), Instants(old(View()), StartReadOnly(episode, Never)))
    {
      ok := ValidKey(episode);
      if ok {
        ghost var at := old(View());
        var before, _ := Understand(start);
        var begun := Memory(episode, CountOf(before, episode), Others(before, episode, true));
        ghost var mid := states;
        ghost var aside := files;
        WriteCounts(begun.Entries());
        memory := Some(begun);
        JoinTexts(states, |old(states)|, |mid|, old(files), aside,
                  {at.file, SetAside(at.file)}, {SetAside(at.file), Some(Print(begun.Entries()))});
      }
    }

    /** A write of the counts that fails before its rename leaves some temporary file. */
    method FailToWrite(partial: string)
      requires Recorded()
      modifies this`files, this`states
      ensures Recorded() && old(states) <= states && TextOf(files) == TextOf(old(files))
      ensures OnlyTexts(states, |old(states)|, old(files), {TextOf(old(files))})
    {
      Put(files - {TmpName});
      Put(files[TmpName := partial]);
    }

    /** `count_read_only_failure`; `lands` says whether writing the counts got as far as its rename. */
    method CountReadOnlyFailure(lands: bool, partial: string) returns (count: Option<nat>)
      requires Recorded() && Consistent(View())
      modifies this
      ensures Recorded() && old(states) <= states
      ensures View() == Apply(old(View()), if lands then Fail(Never) else FailUnwritten)
      ensures count == if memory.Some? then Some(Current(View(), memory.value.episode)) else None
      ensures lands && memory.Some? ==> count == Some(CountOf(Kept(TextOf(files)), memory.value.episode))
      ensures OnlyTexts(states, |old(states)|, old(files), Instants(old(View()), Fail(Never)))
    {
      hide Print, Parse, Distinct, Valid, Others, Consistent, CountOf, Kept;
      if memory.None? {
        return None;
      }
      ghost var at := View();
      FailCounts(at);
      var m := memory.value.(count := (memory.value.count + 1) % WRAP);
      if lands {
        WrittenIsKept(m, Some(m));
        WriteCounts(m.Entries());
      } else {
        FailToWrite(partial);
      }
      memory := Some(m);
      return Some(m.count);
    }

    /** `clear_episode`, run while no server is. */
    method ClearEpisode(episode: string, start: nat) returns (cleared: Option<nat>)
      requires Recorded() && memory.None?
      modifies this`files, this`states
      ensures Recorded() && old(states) <= states && View() == Apply(old(View()), Clear(episode, Never))
      ensures cleared == Lookup(Kept(TextOf(old(files))), episode)
      ensures OnlyTexts(states, |old(states)|, old(files), Instants(old(View()), Clear(episode, Never)))
    {
      hide Print, Parse, Others;
      ghost var at := old(View());
      var entries, absent := Understand(start);
      if absent {
        return None;
      }
      ghost var mid := states;
      ghost var aside := files;
      cleared := Lookup(entries, episode);
      var rest := Others(entries, episode, false);
      if rest == [] {
        Put(files - {CountName});
      } else if cleared.Some? {
        WriteCounts(rest);
      }
      JoinTexts(states, |old(states)|, |mid|, old(files), aside,
                {at.file, SetAside(at.file)}, {SetAside(at.file), Cleared(at.file, episode)});
    }

    method ReadOnlyFailures(episode: string) returns (r: Reported)
      ensures r == Report(TextOf(files), episode)
    {
      var c := ReadCounts();
      match c {
        case Absent => r := Number(0);
        case Clean(entries) => r := Number(CountOf(entries, episode));
        case Corrupt(entries) =>
          var found := Lookup(entries, episode);
          r := if found.Some? then Number(found.value) else NotReadable;
      }
    }
  }

  lemma PrintMore(done: string, entries: seq<Entry>, n: nat)
    requires n < |entries| && done + Print(entries[n..]) == Print(entries)
    ensures done + LineOf(entries[n]) + ['\n'] + Print(entries[n + 1..]) == Print(entries)
  {
    var rest := entries[n..];
    assert rest[1..] == entries[n + 1..];
    assert (seq(|rest|, _ => false))[1..] == seq(|rest[1..]|, _ => false);
  }

  lemma JoinTexts(states: seq<Files>, from: nat, mid: nat, before: Files, between: Files,
                  a: set<Option<string>>, b: set<Option<string>>)
    requires from <= mid <= |states|
    requires OnlyTexts(states[..mid], from, before, a) && OnlyTexts(states, mid, between, b) && KeepsAsides(before, between)
    ensures OnlyTexts(states, from, before, a + b)
  {
    forall i | from <= i < |states| ensures TextOf(states[i]) in a + b && KeepsAsides(before, states[i]) {
      if i < mid {
        assert states[..mid][i] == states[i];
      }
    }
  }
}
