/**
  Discovery of the external code editors installed on a Linux machine.

  The filesystem is a fixed set `fs` of the paths that exist; a probe of a path
  is a membership test in that set. The set is taken not to change while a
  discovery run is in progress.
 */
module LinuxEditors {
  import opened Wrappers

  // ---------------------------------------------------------------------------
  // The editor enumeration and its labels
  // ---------------------------------------------------------------------------

  /** The supported editors, in declaration order. */
  datatype ExternalEditor =
    | Atom
    | VSCode
    | VSCodeInsiders
    | VSCodium
    | SublimeText
    | Typora
    | SlickEdit

  /** The string value of each enum member. */
  function Label(e: ExternalEditor): (s: string)
    ensures s != ""
  {
    match e
    case Atom => "Atom"
    case VSCode => "Visual Studio Code"
    case VSCodeInsiders => "Visual Studio Code (Insiders)"
    case VSCodium => "VSCodium"
    case SublimeText => "Sublime Text"
    case Typora => "Typora"
    case SlickEdit => "SlickEdit"
  }

  /** Every editor once, in declaration order; also the order of the discovery slots. */
  const AllEditors: seq<ExternalEditor> :=
    [Atom, VSCode, VSCodeInsiders, VSCodium, SublimeText, Typora, SlickEdit]

  /** No two editors share a label. */
  lemma LabelInjective(a: ExternalEditor, b: ExternalEditor)
    ensures Label(a) == Label(b) ==> a == b
  {
  }

  /** The first of `candidates` whose label is exactly `text`. */
  function ParseAmong(candidates: seq<ExternalEditor>, text: string): (r: Option<ExternalEditor>)
    ensures r.Some? ==> r.value in candidates && Label(r.value) == text
    ensures r.None? ==> forall e :: e in candidates ==> Label(e) != text
  {
    if candidates == [] then None
    else if Label(candidates[0]) == text then Some(candidates[0])
    else ParseAmong(candidates[1..], text)
  }

  /** `parse`: the editor whose label is exactly `text`, if there is one. */
  function Parse(text: string): (r: Option<ExternalEditor>)
    ensures r.Some? ==> Label(r.value) == text
    ensures r.None? ==> forall e: ExternalEditor :: Label(e) != text
  {
    var r := ParseAmong(AllEditors, text);
    assert r.None? ==> forall e: ExternalEditor :: Label(e) != text by {
      forall e: ExternalEditor ensures e in AllEditors {
        assert AllEditors[SlotIndex(e)] == e;
      }
    }
    r
  }

  /** Parsing inverts the labelling, in both directions. */
  lemma ParseInvertsLabel(e: ExternalEditor, s: string)
    ensures Parse(Label(e)) == Some(e)
    ensures Parse(s) == Some(e) <==> s == Label(e)
  {
    LabelInjective(Parse(Label(e)).value, e);
  }

  lemma ParseScenarios()
    ensures Parse("Visual Studio Code") == Some(VSCode)
    ensures Parse("Notepad") == None
  {
    assert Label(VSCode) == "Visual Studio Code";
    ParseInvertsLabel(VSCode, "Visual Studio Code");
    forall e: ExternalEditor ensures Label(e) != "Notepad" {
      assert |"Notepad"| == 7;
      match e
      case Typora => assert Label(e)[0] != "Notepad"[0];
      case _ => assert Label(e)[0] != "Notepad"[0] || |Label(e)| != 7;
    }
  }

  // ---------------------------------------------------------------------------
  // Probing one path
  // ---------------------------------------------------------------------------

  /** `getPathIfAvailable`: the probed path itself when it exists, and absent otherwise. */
  function PathIfAvailable(path: string, fs: set<string>): (r: Option<string>)
    ensures r.Some? <==> path in fs
    ensures r.Some? ==> r.value == path
  {
    if path in fs then Some(path) else None
  }

  /** A JavaScript truth test on `string | null`: null and the empty string are false. */
  predicate IsTruthy(p: Option<string>) {
    p.Some? && p.value != ""
  }

  // ---------------------------------------------------------------------------
  // Per-editor resolution
  // ---------------------------------------------------------------------------

  const AtomPath := "/usr/bin/atom"
  const CodePath := "/usr/bin/code"
  const CodeInsidersPath := "/usr/bin/code-insiders"
  const CodiumPath := "/usr/bin/codium"
  const SublimePath := "/usr/bin/subl"
  const TyporaPath := "/usr/bin/typora"

  /** SlickEdit's versioned install locations, newest first. */
  const SlickEditPaths: seq<string> := [
    "/opt/slickedit-pro2018/bin/vs",
    "/opt/slickedit-pro2017/bin/vs",
    "/opt/slickedit-pro2016/bin/vs",
    "/opt/slickedit-pro2015/bin/vs"
  ]

  /** The paths probed for `e`, in the order they are tried. */
  function CandidatePaths(e: ExternalEditor): (c: seq<string>)
    ensures c != []
    ensures forall j :: 0 <= j < |c| ==> c[j] != "" && c[j][0] == '/'
  {
    match e
    case Atom => [AtomPath]
    case VSCode => [CodePath]
    case VSCodeInsiders => [CodeInsidersPath]
    case VSCodium => [CodiumPath]
    case SublimeText => [SublimePath]
    case Typora => [TyporaPath]
    case SlickEdit => SlickEditPaths
  }

  /** The index of the first existing path of `candidates`, or `|candidates|` when none exists. */
  function FirstHit(candidates: seq<string>, fs: set<string>): (i: nat)
    ensures i <= |candidates|
    ensures forall j :: 0 <= j < i ==> candidates[j] !in fs
    ensures i < |candidates| ==> candidates[i] in fs
  {
    if candidates == [] || candidates[0] in fs then 0
    else 1 + FirstHit(candidates[1..], fs)
  }

  /** The three facts FirstHit promises determine it. */
  lemma FirstHitUnique(candidates: seq<string>, fs: set<string>, k: nat)
    requires k <= |candidates|
    requires forall j :: 0 <= j < k ==> candidates[j] !in fs
    requires k < |candidates| ==> candidates[k] in fs
    ensures FirstHit(candidates, fs) == k
  {
  }

  /** Which path `getEditorPath` reports for `e`: its first candidate that exists. */
  function Resolve(e: ExternalEditor, fs: set<string>): (r: Option<string>)
    ensures r.Some? ==> r.value in CandidatePaths(e) && r.value in fs
    ensures r.None? <==> forall p :: p in CandidatePaths(e) ==> p !in fs
  {
    var c := CandidatePaths(e);
    var i := FirstHit(c, fs);
    if i < |c| then Some(c[i]) else None
  }

  /** How many candidates of `e` are probed: up to and including the first hit. */
  function ProbeCount(e: ExternalEditor, fs: set<string>): nat {
    var c := CandidatePaths(e);
    var i := FirstHit(c, fs);
    if i < |c| then i + 1 else |c|
  }

  /**
    `getEditorPath`. Besides the path it reports, it hands back (as a ghost) the
    list of paths it probed, in order.
   */
  method GetEditorPath(editor: ExternalEditor, fs: set<string>)
    returns (path: Option<string>, ghost probed: seq<string>)
    ensures path == Resolve(editor, fs)
    ensures probed == CandidatePaths(editor)[..ProbeCount(editor, fs)]
  {
    match editor
    case Atom =>
      path, probed := PathIfAvailable(AtomPath, fs), [AtomPath];
    case VSCode =>
      path, probed := PathIfAvailable(CodePath, fs), [CodePath];
    case VSCodeInsiders =>
      path, probed := PathIfAvailable(CodeInsidersPath, fs), [CodeInsidersPath];
    case VSCodium =>
      path, probed := PathIfAvailable(CodiumPath, fs), [CodiumPath];
    case SublimeText =>
      path, probed := PathIfAvailable(SublimePath, fs), [SublimePath];
    case Typora =>
      path, probed := PathIfAvailable(TyporaPath, fs), [TyporaPath];
    case SlickEdit =>
      var possiblePaths := SlickEditPaths;
      probed := [];
      for k := 0 to |possiblePaths|
        invariant probed == possiblePaths[..k]
        invariant forall j :: 0 <= j < k ==> possiblePaths[j] !in fs
      {
        var slickeditPath := PathIfAvailable(possiblePaths[k], fs);
        probed := probed + [possiblePaths[k]];
        if IsTruthy(slickeditPath) {
          FirstHitUnique(possiblePaths, fs, k);
          return slickeditPath, probed;
        }
      }
      FirstHitUnique(possiblePaths, fs, |possiblePaths|);
      path := None;
  }

  /** Each of the six single-path editors resolves to its hardcoded path exactly when it exists. */
  lemma FixedPathResolution(fs: set<string>)
    ensures Resolve(Atom, fs) == PathIfAvailable("/usr/bin/atom", fs)
    ensures Resolve(VSCode, fs) == PathIfAvailable("/usr/bin/code", fs)
    ensures Resolve(VSCodeInsiders, fs) == PathIfAvailable("/usr/bin/code-insiders", fs)
    ensures Resolve(VSCodium, fs) == PathIfAvailable("/usr/bin/codium", fs)
    ensures Resolve(SublimeText, fs) == PathIfAvailable("/usr/bin/subl", fs)
    ensures Resolve(Typora, fs) == PathIfAvailable("/usr/bin/typora", fs)
  {
  }

  /** When the candidates are pairwise distinct, the first hit is the path at `k` exactly when `k` is the first existing index. */
  lemma FirstHitOfDistinct(candidates: seq<string>, fs: set<string>, k: nat)
    requires k < |candidates|
    requires forall a, b :: 0 <= a < b < |candidates| ==> candidates[a] != candidates[b]
    ensures var i := FirstHit(candidates, fs);
      i < |candidates| && candidates[i] == candidates[k]
      <==> candidates[k] in fs && forall j :: 0 <= j < k ==> candidates[j] !in fs
  {
    if candidates[k] in fs && forall j :: 0 <= j < k ==> candidates[j] !in fs {
      FirstHitUnique(candidates, fs, k);
    }
  }

  /** SlickEdit's four install paths differ in their version digit. */
  lemma SlickEditPathsDistinct()
    ensures forall a, b :: 0 <= a < b < |SlickEditPaths| ==> SlickEditPaths[a] != SlickEditPaths[b]
  {
    assert forall a, b :: 0 <= a < b < |SlickEditPaths| ==> SlickEditPaths[a][21] != SlickEditPaths[b][21];
  }

  /**
    SlickEdit resolves to its k-th versioned path exactly when that path exists
    and no newer one does.
   */
  lemma SlickEditPrefersNewest(fs: set<string>, k: nat)
    requires k < |SlickEditPaths|
    ensures Resolve(SlickEdit, fs) == Some(SlickEditPaths[k])
        <==> SlickEditPaths[k] in fs && forall j :: 0 <= j < k ==> SlickEditPaths[j] !in fs
  {
    SlickEditPathsDistinct();
    FirstHitOfDistinct(SlickEditPaths, fs, k);
  }

  lemma SlickEditScenario(fs: set<string>)
    requires "/opt/slickedit-pro2018/bin/vs" in fs && "/opt/slickedit-pro2016/bin/vs" in fs
    ensures Resolve(SlickEdit, fs) == Some("/opt/slickedit-pro2018/bin/vs")
  {
    SlickEditPrefersNewest(fs, 0);
  }

  /**
    The probes of one resolution stop at its result: every path probed before the
    last one was missing, and the last one probed is the result when there is one.
    When there is none, every candidate was probed.
   */
  lemma ProbesStopAtHit(e: ExternalEditor, fs: set<string>)
    ensures var probed := CandidatePaths(e)[..ProbeCount(e, fs)];
      && probed != []
      && (forall j :: 0 <= j < |probed| - 1 ==> probed[j] !in fs)
      && (Resolve(e, fs).Some? ==> probed[|probed| - 1] == Resolve(e, fs).value)
      && (Resolve(e, fs).None? ==> probed == CandidatePaths(e))
  {
    var c := CandidatePaths(e);
    var i := FirstHit(c, fs);
    var probed := c[..ProbeCount(e, fs)];
    assert forall j :: 0 <= j < |probed| - 1 ==> probed[j] == c[j];
  }

  /** What the source's truth test on a resolved path amounts to: the path is present. */
  lemma ResolvedPathTruthy(e: ExternalEditor, fs: set<string>)
    ensures IsTruthy(Resolve(e, fs)) <==> Resolve(e, fs).Some?
  {
    var c := CandidatePaths(e);
    var i := FirstHit(c, fs);
    if i < |c| {
      assert c[i] != "";
    }
  }

  // ---------------------------------------------------------------------------
  // Aggregation
  // ---------------------------------------------------------------------------

  /** `IFoundEditor`: an editor together with the path it was found at. */
  datatype FoundEditor = FoundEditor(editor: ExternalEditor, path: string)

  /** The position of each editor's slot: its position in the enumeration. */
  function SlotIndex(e: ExternalEditor): (j: nat)
    ensures j < |AllEditors| && AllEditors[j] == e
  {
    match e
    case Atom => 0
    case VSCode => 1
    case VSCodeInsiders => 2
    case VSCodium => 3
    case SublimeText => 4
    case Typora => 5
    case SlickEdit => 6
  }

  /**
    The identifier attached to the record of each discovery slot, as the source
    writes it: the slot probing VS Code Insiders is tagged `VSCode`.
   */
  function SlotTag(e: ExternalEditor): (tag: ExternalEditor)
    ensures tag != VSCodeInsiders
    ensures e == VSCodeInsiders ==> tag == VSCode
    ensures e != VSCodeInsiders ==> tag == e
  {
    if e == VSCodeInsiders then VSCode else e
  }

  /** The record slot `j` contributes: one when its path passes `if (path)`, none otherwise. */
  function SlotRecord(slots: seq<Option<string>>, j: nat): seq<FoundEditor>
    requires |slots| == |AllEditors| && j < |AllEditors|
  {
    if IsTruthy(slots[j]) then [FoundEditor(SlotTag(AllEditors[j]), slots[j].value)] else []
  }

  /** What `results` holds once the slots before `i` have been looked at. */
  function ReportBefore(slots: seq<Option<string>>, i: nat): (r: seq<FoundEditor>)
    requires |slots| == |AllEditors| && i <= |AllEditors|
    ensures |r| <= i
  {
    if i == 0 then [] else ReportBefore(slots, i - 1) + SlotRecord(slots, i - 1)
  }

  /** The records pushed for the seven settled slots. */
  function Report(slots: seq<Option<string>>): seq<FoundEditor>
    requires |slots| == |AllEditors|
  {
    ReportBefore(slots, |slots|)
  }

  /** The slots before `i` whose path passes `if (path)`, in increasing order. */
  function TruthySlotsBefore(slots: seq<Option<string>>, i: nat): (s: seq<nat>)
    requires |slots| == |AllEditors| && i <= |AllEditors|
    ensures forall k :: 0 <= k < |s| ==> s[k] < i
    ensures forall a, b :: 0 <= a < b < |s| ==> s[a] < s[b]
    ensures forall j :: 0 <= j < i ==> (j in s <==> IsTruthy(slots[j]))
  {
    if i == 0 then []
    else TruthySlotsBefore(slots, i - 1) + (if IsTruthy(slots[i - 1]) then [i - 1] else [])
  }

  /** The record slot `j` contributes when its path passes `if (path)`. */
  function RecordOfSlot(slots: seq<Option<string>>, j: nat): FoundEditor
    requires |slots| == |AllEditors| && j < |AllEditors| && slots[j].Some?
  {
    FoundEditor(SlotTag(AllEditors[j]), slots[j].value)
  }

  /**
    The records are those of exactly the slots that pass `if (path)`, one per
    such slot, in slot order.
   */
  lemma {:induction false} ReportFollowsSlots(slots: seq<Option<string>>, i: nat)
    requires |slots| == |AllEditors| && i <= |AllEditors|
    ensures var r, s := ReportBefore(slots, i), TruthySlotsBefore(slots, i);
      && |r| == |s|
      && forall k :: 0 <= k < |s| ==>
           s[k] < |AllEditors| && IsTruthy(slots[s[k]]) && r[k] == RecordOfSlot(slots, s[k])
  {
    if i > 0 {
      ReportFollowsSlots(slots, i - 1);
    }
  }

  /** The paths of the records tagged `t`, in order. */
  function TaggedPaths(records: seq<FoundEditor>, t: ExternalEditor): (paths: seq<string>)
    ensures |paths| <= |records|
  {
    if records == [] then []
    else (if records[0].editor == t then [records[0].path] else []) + TaggedPaths(records[1..], t)
  }

  /** Associativity of `+`, stated once so the inductive step below can name the regrouping it needs. */
  lemma AppendAssociative<T>(a: seq<T>, b: seq<T>, c: seq<T>)
    ensures (a + b) + c == a + (b + c)
  {
  }

  lemma {:induction false} TaggedPathsAppend(a: seq<FoundEditor>, b: seq<FoundEditor>, t: ExternalEditor)
    ensures TaggedPaths(a + b, t) == TaggedPaths(a, t) + TaggedPaths(b, t)
  {
    if a == [] {
      assert a + b == b;
    } else {
      assert (a + b)[0] == a[0];
      assert (a + b)[1..] == a[1..] + b;
      TaggedPathsAppend(a[1..], b, t);
      var head := if a[0].editor == t then [a[0].path] else [];
      AppendAssociative(head, TaggedPaths(a[1..], t), TaggedPaths(b, t));
    }
  }

  /** The path of a slot, as a list, when it passes `if (path)`. */
  function TruthyPaths(p: Option<string>): seq<string> {
    if IsTruthy(p) then [p.value] else []
  }

  /** The paths the slots before `i` contribute under tag `t`, in slot order. */
  function TaggedSlotPaths(slots: seq<Option<string>>, i: nat, t: ExternalEditor): seq<string>
    requires |slots| == |AllEditors| && i <= |AllEditors|
  {
    if i == 0 then []
    else TaggedSlotPaths(slots, i - 1, t) + (if SlotTag(AllEditors[i - 1]) == t then TruthyPaths(slots[i - 1]) else [])
  }

  lemma {:induction false} TaggedPathsBefore(slots: seq<Option<string>>, i: nat, t: ExternalEditor)
    requires |slots| == |AllEditors| && i <= |AllEditors|
    ensures TaggedPaths(ReportBefore(slots, i), t) == TaggedSlotPaths(slots, i, t)
  {
    if i > 0 {
      TaggedPathsBefore(slots, i - 1, t);
      TaggedPathsAppend(ReportBefore(slots, i - 1), SlotRecord(slots, i - 1), t);
    }
  }

  /** Slots whose tag is not `t` add nothing to the paths collected under `t`. */
  lemma {:induction false} TaggedSlotPathsSkip(slots: seq<Option<string>>, lo: nat, i: nat, t: ExternalEditor)
    requires |slots| == |AllEditors| && lo <= i <= |AllEditors|
    requires forall j :: lo <= j < i ==> SlotTag(AllEditors[j]) != t
    ensures TaggedSlotPaths(slots, i, t) == TaggedSlotPaths(slots, lo, t)
  {
    if i > lo {
      TaggedSlotPathsSkip(slots, lo, i - 1, t);
    }
  }

  /** Which slots carry tag `t`: slots 1 and 2 for `VSCode`, none for `VSCodeInsiders`, otherwise the editor's own slot. */
  lemma SlotsTagged(k: nat, t: ExternalEditor)
    requires k < |AllEditors|
    ensures SlotTag(AllEditors[k]) == t
        <==> if t == VSCode then k == 1 || k == 2
             else t != VSCodeInsiders && k == SlotIndex(t)
  {
  }

  /**
    The records tagged with each identifier: `VSCode` collects the truthy paths
    of both the VS Code slot and the Insiders slot, in that order;
    `VSCodeInsiders` collects none; every other editor collects its own slot's
    path, at most once.
   */
  lemma TaggedPathsOfReport(slots: seq<Option<string>>, t: ExternalEditor)
    requires |slots| == |AllEditors|
    ensures TaggedPaths(Report(slots), t)
         == if t == VSCode then TruthyPaths(slots[1]) + TruthyPaths(slots[2])
            else if t == VSCodeInsiders then []
            else TruthyPaths(slots[SlotIndex(t)])
  {
    TaggedPathsBefore(slots, |AllEditors|, t);
    forall k | 0 <= k < |AllEditors| {
      SlotsTagged(k, t);
    }
    if t == VSCode {
      var first, last := 1, 3;
      TaggedSlotPathsSkip(slots, 0, first, t);
      TaggedSlotPathsSkip(slots, last, |AllEditors|, t);
      assert TaggedSlotPaths(slots, first + 1, t) == TruthyPaths(slots[first]);
    } else if t == VSCodeInsiders {
      TaggedSlotPathsSkip(slots, 0, |AllEditors|, t);
    } else {
      var j := SlotIndex(t);
      TaggedSlotPathsSkip(slots, 0, j, t);
      TaggedSlotPathsSkip(slots, j + 1, |AllEditors|, t);
    }
  }

  // ---------------------------------------------------------------------------
  // The discovery run
  // ---------------------------------------------------------------------------

  /** The seven resolutions, in slot order. */
  function ResolvedSlots(fs: set<string>): (slots: seq<Option<string>>)
    ensures |slots| == |AllEditors|
    ensures forall j :: 0 <= j < |AllEditors| ==> slots[j] == Resolve(AllEditors[j], fs)
  {
    seq(|AllEditors|, j requires 0 <= j < |AllEditors| => Resolve(AllEditors[j], fs))
  }

  /** What `getAvailableEditors` returns on filesystem `fs`. */
  function AvailableEditors(fs: set<string>): seq<FoundEditor> {
    Report(ResolvedSlots(fs))
  }

  /**
    The result is made of the records of exactly the editors whose resolution
    is non-null, one record per such slot, in slot order; each record carries
    its slot's tag and resolved path.
   */
  lemma AvailableEditorsInSlotOrder(fs: set<string>)
    ensures var r, s := AvailableEditors(fs), TruthySlotsBefore(ResolvedSlots(fs), |AllEditors|);
      && |r| == |s|
      && (forall j :: 0 <= j < |AllEditors| ==> (j in s <==> Resolve(AllEditors[j], fs).Some?))
      && (forall a, b :: 0 <= a < b < |s| ==> s[a] < s[b])
      && forall k :: 0 <= k < |s| ==>
           s[k] < |AllEditors| && Resolve(AllEditors[s[k]], fs).Some?
           && r[k] == FoundEditor(SlotTag(AllEditors[s[k]]), Resolve(AllEditors[s[k]], fs).value)
  {
    ReportFollowsSlots(ResolvedSlots(fs), |AllEditors|);
    forall e { ResolvedPathTruthy(e, fs); }
  }

  /** At most one record per slot, and every record names a path that exists. */
  lemma AvailableEditorsBounded(fs: set<string>)
    ensures |AvailableEditors(fs)| <= 7
    ensures forall k :: 0 <= k < |AvailableEditors(fs)| ==> AvailableEditors(fs)[k].path in fs
  {
    AvailableEditorsInSlotOrder(fs);
  }

  /** No record is ever tagged `VSCodeInsiders`. */
  lemma NoInsidersRecord(fs: set<string>, k: nat)
    requires k < |AvailableEditors(fs)|
    ensures AvailableEditors(fs)[k].editor != VSCodeInsiders
  {
    ReportFollowsSlots(ResolvedSlots(fs), |AllEditors|);
  }

  /** The path the slot of editor `e` contributes is the resolution of `e`, when there is one. */
  lemma SlotPaths(fs: set<string>, e: ExternalEditor)
    ensures TruthyPaths(ResolvedSlots(fs)[SlotIndex(e)]) == ToSeq(Resolve(e, fs))
  {
    ResolvedPathTruthy(e, fs);
  }

  /**
    The `VSCode` records on filesystem `fs`: the `/usr/bin/code` one, then the
    `/usr/bin/code-insiders` one, each when it exists.
   */
  lemma VSCodeRecordsOfAvailableEditors(fs: set<string>)
    ensures TaggedPaths(AvailableEditors(fs), VSCode)
         == ToSeq(Resolve(VSCode, fs)) + ToSeq(Resolve(VSCodeInsiders, fs))
  {
    TaggedPathsOfReport(ResolvedSlots(fs), VSCode);
    SlotPaths(fs, VSCode);
    SlotPaths(fs, VSCodeInsiders);
  }

  /** Every editor other than the two VS Code builds has one record when it resolves and none otherwise. */
  lemma OwnRecordOfAvailableEditors(fs: set<string>, t: ExternalEditor)
    requires t != VSCode && t != VSCodeInsiders
    ensures TaggedPaths(AvailableEditors(fs), t) == ToSeq(Resolve(t, fs))
  {
    TaggedPathsOfReport(ResolvedSlots(fs), t);
    SlotPaths(fs, t);
  }

  /** With both VS Code builds installed, two records carry the identifier `VSCode`. */
  lemma BothCodeBuildsGiveTwoVSCodeRecords(fs: set<string>)
    requires CodePath in fs && CodeInsidersPath in fs
    ensures TaggedPaths(AvailableEditors(fs), VSCode) == ["/usr/bin/code", "/usr/bin/code-insiders"]
  {
    VSCodeRecordsOfAvailableEditors(fs);
  }

  /** The slots on a filesystem holding at most the two VS Code builds among the candidate paths. */
  lemma OnlyCodeBuildsSlots(fs: set<string>)
    requires forall p :: p in SlickEditPaths ==> p !in fs
    requires AtomPath !in fs && CodiumPath !in fs && SublimePath !in fs && TyporaPath !in fs
    ensures ResolvedSlots(fs)
         == [None, PathIfAvailable(CodePath, fs), PathIfAvailable(CodeInsidersPath, fs), None, None, None, None]
  {
    FixedPathResolution(fs);
  }

  /** Slots whose path fails `if (path)` add no record. */
  lemma {:induction false} ReportSkip(slots: seq<Option<string>>, lo: nat, i: nat)
    requires |slots| == |AllEditors| && lo <= i <= |AllEditors|
    requires forall j :: lo <= j < i ==> !IsTruthy(slots[j])
    ensures ReportBefore(slots, i) == ReportBefore(slots, lo)
  {
    if i > lo {
      ReportSkip(slots, lo, i - 1);
    }
  }

  /** The records when only the VS Code and Insiders slots may be filled: both tagged `VSCode`. */
  lemma ReportOfCodeOnlySlots(code: Option<string>, insiders: Option<string>)
    ensures Report([None, code, insiders, None, None, None, None])
         == (if IsTruthy(code) then [FoundEditor(VSCode, code.value)] else [])
          + (if IsTruthy(insiders) then [FoundEditor(VSCode, insiders.value)] else [])
  {
    var slots := [None, code, insiders, None, None, None, None];
    var first, last := 1, 3;
    ReportSkip(slots, 0, first);
    ReportSkip(slots, last, |AllEditors|);
    assert ReportBefore(slots, first + 1) == SlotRecord(slots, first);
  }

  lemma EmptyFilesystemScenario()
    ensures AvailableEditors({}) == []
  {
    OnlyCodeBuildsSlots({});
    ReportOfCodeOnlySlots(None, None);
  }

  lemma OnlyCodeScenario()
    ensures AvailableEditors({"/usr/bin/code"}) == [FoundEditor(VSCode, "/usr/bin/code")]
  {
    OnlyCodeBuildsSlots({CodePath});
    ReportOfCodeOnlySlots(Some(CodePath), None);
  }

  lemma BothCodeBuildsScenario()
    ensures AvailableEditors({"/usr/bin/code", "/usr/bin/code-insiders"})
         == [FoundEditor(VSCode, "/usr/bin/code"), FoundEditor(VSCode, "/usr/bin/code-insiders")]
  {
    OnlyCodeBuildsSlots({CodePath, CodeInsidersPath});
    ReportOfCodeOnlySlots(Some(CodePath), Some(CodeInsidersPath));
  }

  /** An order in which the seven probes may finish: every slot index exactly once. */
  predicate IsCompletionOrder(order: seq<nat>) {
    && |order| == |AllEditors|
    && (forall k :: 0 <= k < |order| ==> order[k] < |AllEditors|)
    && (forall a, b :: 0 <= a < b < |order| ==> order[a] != order[b])
    && (forall j :: 0 <= j < |AllEditors| ==> j in order)
  }

  /**
    `Promise.all` over the seven resolutions: the probes settle in
    `completionOrder`, and each writes only its own slot.
   */
  method SettleProbes(fs: set<string>, completionOrder: seq<nat>) returns (slots: seq<Option<string>>)
    requires IsCompletionOrder(completionOrder)
    ensures slots == ResolvedSlots(fs)
  {
    slots := seq(|AllEditors|, _ => None);
    for k := 0 to |completionOrder|
      invariant |slots| == |AllEditors|
      invariant forall a :: 0 <= a < k ==> slots[completionOrder[a]] == Resolve(AllEditors[completionOrder[a]], fs)
    {
      var j := completionOrder[k];
      var path;
      ghost var probed;
      path, probed := GetEditorPath(AllEditors[j], fs);
      slots := slots[j := path];
    }
    forall j | 0 <= j < |AllEditors|
      ensures slots[j] == Resolve(AllEditors[j], fs)
    {
      assert j in completionOrder;
      var a :| 0 <= a < |completionOrder| && completionOrder[a] == j;
    }
    assert slots == ResolvedSlots(fs);
  }

  /** The report spelled out: the records of slots 0 to 6, concatenated in slot order. */
  lemma ReportUnrolled(slots: seq<Option<string>>)
    requires |slots| == |AllEditors|
    ensures Report(slots)
         == [] + SlotRecord(slots, 0) + SlotRecord(slots, 1) + SlotRecord(slots, 2) + SlotRecord(slots, 3)
          + SlotRecord(slots, 4) + SlotRecord(slots, 5) + SlotRecord(slots, 6)
  {
    assert ReportBefore(slots, 1) == [] + SlotRecord(slots, 0);
    assert ReportBefore(slots, 2) == ReportBefore(slots, 1) + SlotRecord(slots, 1);
    assert ReportBefore(slots, 3) == ReportBefore(slots, 2) + SlotRecord(slots, 2);
    assert ReportBefore(slots, 4) == ReportBefore(slots, 3) + SlotRecord(slots, 3);
    assert ReportBefore(slots, 5) == ReportBefore(slots, 4) + SlotRecord(slots, 4);
    assert ReportBefore(slots, 6) == ReportBefore(slots, 5) + SlotRecord(slots, 5);
  }

  /**
    `getAvailableEditors`. Whatever order the probes finish in, the result is
    `AvailableEditors(fs)`.
   */
  method GetAvailableEditors(fs: set<string>, completionOrder: seq<nat>) returns (results: seq<FoundEditor>)
    requires IsCompletionOrder(completionOrder)
    ensures results == AvailableEditors(fs)
  {
    var slots := SettleProbes(fs, completionOrder);
    results := PushFound(slots);
  }

  /**
    The `if (path) results.push(...)` sequence of `getAvailableEditors` over the
    settled slots: the records pushed are `Report(slots)`.
   */
  method PushFound(slots: seq<Option<string>>) returns (results: seq<FoundEditor>)
    requires |slots| == |AllEditors|
    ensures results == Report(slots)
  {
    var atomPath, codePath, codeInsidersPath, codiumPath := slots[0], slots[1], slots[2], slots[3];
    var sublimePath, typoraPath, slickeditPath := slots[4], slots[5], slots[6];

    // After the push for slot k, `results` holds the records of slots 0 to k.
    results := [];
    if IsTruthy(atomPath) {
      results := results + [FoundEditor(Atom, atomPath.value)];
    }
    assert results == [] + SlotRecord(slots, 0);
    ghost var done := results;
    if IsTruthy(codePath) {
      results := results + [FoundEditor(VSCode, codePath.value)];
    }
    assert results == done + SlotRecord(slots, 1);
    done := results;
    if IsTruthy(codeInsidersPath) {
      results := results + [FoundEditor(VSCode, codeInsidersPath.value)];
    }
    assert results == done + SlotRecord(slots, 2);
    done := results;
    if IsTruthy(codiumPath) {
      results := results + [FoundEditor(VSCodium, codiumPath.value)];
    }
    assert results == done + SlotRecord(slots, 3);
    done := results;
    if IsTruthy(sublimePath) {
      results := results + [FoundEditor(SublimeText, sublimePath.value)];
    }
    assert results == done + SlotRecord(slots, 4);
    done := results;
    if IsTruthy(typoraPath) {
      results := results + [FoundEditor(Typora, typoraPath.value)];
    }
    assert results == done + SlotRecord(slots, 5);
    done := results;
    if IsTruthy(slickeditPath) {
      results := results + [FoundEditor(SlickEdit, slickeditPath.value)];
    }
    assert results == done + SlotRecord(slots, 6);
    ReportUnrolled(slots);
  }
}
