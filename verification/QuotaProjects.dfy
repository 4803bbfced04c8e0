/** The quota scripts of the local-path provisioner: `setup` allots a project id by adding one to
    the id on the last line of the projects file, `teardown` filters both files by volume name.
    Files are sequences of lines; the filter's pattern is the volume name, in which a dot matches
    any character. */
module QuotaProjects {
  import opened Decimal
  import opened Options

  type File = seq<string>

  /** VOL_DIR is the parent directory, a slash, and the name of the volume. */
  datatype Volume = Volume(parent: string, name: string)

  function Dir(v: Volume): string {
    v.parent + "/" + v.name
  }

  function ProjectLine(id: nat, dir: string): string {
    Render(id) + ":" + dir
  }

  function ProjidLine(name: string, id: nat): string {
    name + ":" + Render(id)
  }

  // ---------------------------------------------------------------------------
  // The shell's text operations
  // ---------------------------------------------------------------------------

  /** tail -n 1 */
  function LastLine(f: File): string {
    if f == [] then "" else f[|f| - 1]
  }

  /** ${line%:*}: the text before the last colon, or all of it when there is none. */
  function BeforeLastColon(line: string): string {
    var i := LastColon(line, |line|);
    if i < 0 then line else line[..i]
  }

  function LastColon(line: string, n: nat): (i: int)
    requires n <= |line|
    ensures -1 <= i < n
    ensures i >= 0 ==> line[i] == ':'
    ensures forall j :: i < j < n ==> line[j] != ':'
  {
    if n == 0 then -1 else if line[n - 1] == ':' then n - 1 else LastColon(line, n - 1)
  }

  /** A volume name as a regular expression: of the characters a name may have, only the dot is
      special. */
  predicate OccursAt(line: string, name: string, i: nat) {
    i + |name| <= |line| && forall k :: 0 <= k < |name| ==> name[k] == '.' || line[i + k] == name[k]
  }

  predicate Matches(line: string, name: string) {
    exists i :: 0 <= i <= |line| && OccursAt(line, name, i)
  }

  /** The lines that do not have one of the given texts. */
  function Keep(f: File, removed: set<string>): File {
    if f == [] then []
    else Keep(f[..|f| - 1], removed) + (if f[|f| - 1] in removed then [] else [f[|f| - 1]])
  }

  /** $(...) drops trailing newlines. */
  function DropTrailingBlank(f: File): File {
    if f != [] && f[|f| - 1] == "" then DropTrailingBlank(f[..|f| - 1]) else f
  }

  /** echo "$(sed ...)" > file: of an empty output, one blank line is left. */
  function WriteBack(f: File): (g: File)
    ensures g != [] && (LastLine(g) == "" ==> g == [""])
  {
    DropEndsNonBlank(f);
    var g := DropTrailingBlank(f);
    if g == [] then [""] else g
  }

  lemma {:induction false} DropEndsNonBlank(f: File)
    ensures var g := DropTrailingBlank(f); g <= f && (g != [] ==> LastLine(g) != "")
    ensures forall i :: |DropTrailingBlank(f)| <= i < |f| ==> f[i] == ""
  {
    if f != [] && f[|f| - 1] == "" {
      DropEndsNonBlank(f[..|f| - 1]);
    }
  }

  /** sed "/name/d" */
  function Matching(f: File, name: string): set<string> {
    set l | l in f && Matches(l, name)
  }

  function FirstColon(line: string): (i: nat)
    ensures i <= |line| && (i < |line| ==> line[i] == ':')
    ensures forall j :: 0 <= j < i ==> line[j] != ':'
  {
    if line == "" || line[0] == ':' then 0 else 1 + FirstColon(line[1..])
  }

  predicate IsNumber(text: string) {
    text != "" && AllDigits(text)
  }

  /** The id of a line of the projects file is the number before its first colon. */
  predicate Numbered(line: string) {
    IsNumber(line[..FirstColon(line)])
  }

  function IdOf(line: string): nat
    requires Numbered(line)
  {
    Value(line[..FirstColon(line)])
  }

  /** The script takes the text before the last colon; unless that is a number, its arithmetic
      fails and ends it. */
  predicate CanAllot(projects: File) {
    LastLine(projects) == "" || IsNumber(BeforeLastColon(LastLine(projects)))
  }

  function NextId(projects: File): nat
    requires CanAllot(projects)
  {
    if LastLine(projects) == "" then 1 else Value(BeforeLastColon(LastLine(projects))) + 1
  }

  /** Where the script reads a number, it is the id of the line. */
  lemma ScriptReadsId(line: string)
    requires IsNumber(BeforeLastColon(line))
    ensures Numbered(line) && IdOf(line) == Value(BeforeLastColon(line))
  {
    var i, j := FirstColon(line), LastColon(line, |line|);
    if j >= 0 {
      assert forall k :: 0 <= k < j ==> line[k] == BeforeLastColon(line)[k] != ':';
      assert i == j;
    } else {
      assert i == |line|;
      assert line[..i] == line;
    }
  }

  lemma ReadBack(id: nat, dir: string)
    ensures Numbered(ProjectLine(id, dir)) && IdOf(ProjectLine(id, dir)) == id
    ensures IsNumber(BeforeLastColon(ProjectLine(id, dir))) <==> ':' !in dir
    ensures ProjectLine(id, dir) != ""
  {
    RenderRoundTrip(id);
    var line := ProjectLine(id, dir);
    var n := |Render(id)|;
    assert line[n] == ':';
    assert forall j :: 0 <= j < n ==> line[j] == Render(id)[j] != ':';
    assert FirstColon(line) == n;
    assert line[..n] == Render(id);
    assert line[n + 1..] == dir;
    var last := LastColon(line, |line|);
    if ':' in dir {
      var k :| 0 <= k < |dir| && dir[k] == ':';
      assert line[n + 1 + k] == ':';
      assert last > n;
      assert BeforeLastColon(line)[n] == ':';
    } else {
      assert forall j :: n < j < |line| ==> line[j] == dir[j - n - 1];
      assert last == n;
    }
  }

  /** The next id is one above the id on the last line, and 1 for a file without lines or with blank
      ones only. */
  lemma NextIdFollowsLast(f: File)
    requires CanAllot(f)
    ensures LastLine(f) == "" ==> NextId(f) == 1
    ensures LastLine(f) != "" ==> Numbered(LastLine(f)) && NextId(f) == IdOf(LastLine(f)) + 1
  {
    if LastLine(f) != "" {
      ScriptReadsId(LastLine(f));
    }
  }

  /** The next setup can allot an id after this one if and only if the directory has no colon. */
  lemma NextSetupWorks(f: File, dir: string)
    requires CanAllot(f)
    ensures CanAllot(FileStep(f, Allot(dir))) <==> ':' !in dir
  {
    ReadBack(NextId(f), dir);
  }

  // ---------------------------------------------------------------------------
  // Ids are unique over every run
  // ---------------------------------------------------------------------------

  /** Lines are blank or numbered, the numbers rise from line to line, and the last line is blank
      only when all are. */
  ghost predicate Ordered(f: File) {
    && (forall i :: 0 <= i < |f| && f[i] != "" ==> Numbered(f[i]))
    && (forall i, j :: 0 <= i < j < |f| && f[i] != "" && f[j] != "" ==> IdOf(f[i]) < IdOf(f[j]))
    && (LastLine(f) == "" ==> forall i :: 0 <= i < |f| ==> f[i] == "")
  }

  datatype FileEvent = Allot(dir: string) | Filter(removed: set<string>)

  function FileStep(f: File, e: FileEvent): File {
    match e
    case Allot(dir) => if CanAllot(f) then f + [ProjectLine(NextId(f), dir)] else f
    case Filter(removed) => WriteBack(Keep(f, removed))
  }

  function FileRun(f: File, es: seq<FileEvent>): File {
    if es == [] then f else FileStep(FileRun(f, es[..|es| - 1]), es[|es| - 1])
  }

  /** The order of lines, without the condition on the last one. */
  ghost predicate Rising(f: File) {
    && (forall i :: 0 <= i < |f| && f[i] != "" ==> Numbered(f[i]))
    && (forall i, j :: 0 <= i < j < |f| && f[i] != "" && f[j] != "" ==> IdOf(f[i]) < IdOf(f[j]))
  }

  lemma RisingSnoc(f: File, line: string)
    requires Rising(f)
    requires line != "" ==> Numbered(line) && forall i :: 0 <= i < |f| && f[i] != "" ==> IdOf(f[i]) < IdOf(line)
    ensures Rising(f + [line])
  {
  }

  lemma {:induction false} KeepRising(f: File, removed: set<string>)
    requires Rising(f)
    ensures Rising(Keep(f, removed)) && forall l :: l in Keep(f, removed) ==> l in f
  {
    if f != [] {
      var front, last := f[..|f| - 1], f[|f| - 1];
      KeepRising(front, removed);
      var k := Keep(front, removed);
      forall i | 0 <= i < |k| && k[i] != "" && last != "" ensures IdOf(k[i]) < IdOf(last) {
        assert k[i] in k;
        var j :| 0 <= j < |front| && front[j] == k[i];
        assert f[j] == front[j];
      }
      RisingSnoc(k, last);
    }
  }

  lemma {:induction false} DropRising(f: File)
    requires Rising(f)
    ensures Rising(DropTrailingBlank(f))
    ensures DropTrailingBlank(f) != [] ==> LastLine(DropTrailingBlank(f)) != ""
  {
    if f != [] && f[|f| - 1] == "" {
      DropRising(f[..|f| - 1]);
    }
  }

  lemma BelowNext(f: File, i: nat)
    requires Ordered(f) && CanAllot(f) && i < |f| && f[i] != ""
    ensures LastLine(f) != "" && IdOf(f[i]) < NextId(f)
  {
    ScriptReadsId(LastLine(f));
  }

  lemma AllotOrdered(f: File, dir: string)
    requires Ordered(f)
    ensures Ordered(FileStep(f, Allot(dir)))
  {
    if CanAllot(f) {
      var line := ProjectLine(NextId(f), dir);
      ReadBack(NextId(f), dir);
      forall i | 0 <= i < |f| && f[i] != "" ensures IdOf(f[i]) < IdOf(line) {
        BelowNext(f, i);
      }
      OrderedSnoc(f, line);
    }
  }

  lemma OrderedSnoc(f: File, line: string)
    requires Ordered(f) && line != "" && Numbered(line)
    requires forall i :: 0 <= i < |f| && f[i] != "" ==> IdOf(f[i]) < IdOf(line)
    ensures Ordered(f + [line])
  {
    assert Rising(f);
    RisingSnoc(f, line);
    assert LastLine(f + [line]) == line;
  }

  lemma FilterOrdered(f: File, removed: set<string>)
    requires Ordered(f)
    ensures Ordered(FileStep(f, Filter(removed)))
  {
    assert Rising(f);
    KeepRising(f, removed);
    DropRising(Keep(f, removed));
  }

  /** After any sequence of allotments and filterings, whatever lines each filter removes, the ids
      in the projects file strictly increase line by line; so no two lines share an id, and a new
      id is above every id in the file. */
  lemma {:induction false} IdsIncrease(f: File, es: seq<FileEvent>)
    requires Ordered(f)
    ensures var g := FileRun(f, es);
            && Ordered(g)
            && (CanAllot(g) ==> forall i :: 0 <= i < |g| && g[i] != "" ==> IdOf(g[i]) < NextId(g))
  {
    if es != [] {
      var g := FileRun(f, es[..|es| - 1]);
      IdsIncrease(f, es[..|es| - 1]);
      match es[|es| - 1]
      case Allot(dir) => AllotOrdered(g, dir);
      case Filter(removed) => FilterOrdered(g, removed);
    }
    var g := FileRun(f, es);
    if CanAllot(g) {
      forall i | 0 <= i < |g| && g[i] != "" ensures IdOf(g[i]) < NextId(g) {
        BelowNext(g, i);
      }
    }
  }

  // ---------------------------------------------------------------------------
  // The two files and the limits
  // ---------------------------------------------------------------------------

  datatype Tables = Tables(projects: File, projid: File, limits: map<nat, nat>)

  function LimitOf(t: Tables, id: nat): nat {
    if id in t.limits then t.limits[id] else 0
  }

  /** The id on a line "name:id" of the projid file, if it is this name's line. */
  function LineId(line: string, name: string): Option<nat> {
    if (name + ":") <= line && AllDigits(line[|name| + 1..]) then Some(Value(line[|name| + 1..])) else None
  }

  /** The first line on which `id` finds something. */
  function First(f: File, id: string -> Option<nat>): Option<nat> {
    if f == [] then None
    else if First(f[..|f| - 1], id).Some? then First(f[..|f| - 1], id)
    else id(f[|f| - 1])
  }

  /** xfs_quota resolves a project name through the first matching line. */
  function Lookup(projid: File, name: string): Option<nat> {
    First(projid, line => LineId(line, name))
  }

  /** limit -p bhard=size name: an unknown name is an error and changes nothing. */
  function SetLimit(t: Tables, name: string, size: nat): Tables {
    match Lookup(t.projid, name)
    case None => t
    case Some(id) => t.(limits := t.limits[id := size])
  }

  /** One project: an id and the volume it was allotted to. */
  datatype Entry = Entry(id: nat, volume: Volume)

  function ProjectText(e: Entry): string {
    ProjectLine(e.id, Dir(e.volume))
  }

  function ProjidText(e: Entry): string {
    ProjidLine(e.volume.name, e.id)
  }

  /** The two appends. */
  function Append(t: Tables, e: Entry): Tables {
    t.(projects := t.projects + [ProjectText(e)], projid := t.projid + [ProjidText(e)])
  }

  function Setup(t: Tables, v: Volume, size: nat): Tables {
    if CanAllot(t.projects) then SetLimit(Append(t, Entry(NextId(t.projects), v)), v.name, size) else t
  }

  function Teardown(t: Tables, v: Volume): Tables {
    var u := SetLimit(t, v.name, 0);
    u.(projects := WriteBack(Keep(u.projects, Matching(u.projects, v.name))),
       projid := WriteBack(Keep(u.projid, Matching(u.projid, v.name))))
  }

  /** The machine's state, and the two scripts on it. */
  class Host {
    var projects: File
    var projid: File
    var limits: map<nat, nat>

    function View(): Tables
      reads this
    {
      Tables(projects, projid, limits)
    }

    constructor ()
      ensures View() == Tables([], [], map[])
    {
      projects, projid, limits := [], [], map[];
    }

    method LimitCommand(name: string, size: nat)
      modifies this`limits
      ensures View() == SetLimit(old(View()), name, size)
    {
      var found := Lookup(projid, name);
      if found.Some? {
        limits := limits[found.value := size];
      }
    }

    method RunSetup(v: Volume, size: nat)
      modifies this
      ensures View() == Setup(old(View()), v, size)
    {
      var project := LastLine(projects);
      var id := 1;
      if project != "" {
        var text := BeforeLastColon(project);
        if !IsNumber(text) {
          return;
        }
        id := Value(text) + 1;
      }
      projects := projects + [ProjectLine(id, Dir(v))];
      projid := projid + [ProjidLine(v.name, id)];
      LimitCommand(v.name, size);
    }

    method RunTeardown(v: Volume)
      modifies this
      ensures View() == Teardown(old(View()), v)
    {
      LimitCommand(v.name, 0);
      projects := WriteBack(Keep(projects, Matching(projects, v.name)));
      projid := WriteBack(Keep(projid, Matching(projid, v.name)));
    }
  }

  // ---------------------------------------------------------------------------
  // Files as the lines of the live projects
  // ---------------------------------------------------------------------------

  function NonBlank(f: File): File {
    if f == [] then []
    else NonBlank(f[..|f| - 1]) + (if f[|f| - 1] == "" then [] else [f[|f| - 1]])
  }

  function Lines(live: seq<Entry>, text: Entry -> string): File {
    if live == [] then [] else Lines(live[..|live| - 1], text) + [text(live[|live| - 1])]
  }

  function Without(live: seq<Entry>, name: string): seq<Entry> {
    if live == [] then []
    else Without(live[..|live| - 1], name) +
         (if live[|live| - 1].volume.name == name then [] else [live[|live| - 1]])
  }

  lemma NonBlankSnoc(f: File, line: string)
    ensures NonBlank(f + [line]) == NonBlank(f) + (if line == "" then [] else [line])
  {
    assert (f + [line])[..|f|] == f;
  }

  lemma KeepSnoc(f: File, line: string, removed: set<string>)
    ensures Keep(f + [line], removed) == Keep(f, removed) + (if line in removed then [] else [line])
  {
    assert (f + [line])[..|f|] == f;
  }

  lemma LinesSnoc(live: seq<Entry>, e: Entry, text: Entry -> string)
    ensures Lines(live + [e], text) == Lines(live, text) + [text(e)]
  {
    assert (live + [e])[..|live|] == live;
  }

  lemma {:induction false} NonBlankKeep(f: File, removed: set<string>)
    ensures NonBlank(Keep(f, removed)) == Keep(NonBlank(f), removed)
  {
    if f != [] {
      var front, last := f[..|f| - 1], f[|f| - 1];
      NonBlankKeep(front, removed);
      NonBlankSnoc(Keep(front, removed), last);
      KeepSnoc(NonBlank(front), last, removed);
      assert Keep(front, removed) + [] == Keep(front, removed) && NonBlank(front) + [] == NonBlank(front);
    }
  }

  lemma {:induction false} NonBlankDrop(f: File)
    ensures NonBlank(DropTrailingBlank(f)) == NonBlank(f)
  {
    if f != [] && f[|f| - 1] == "" {
      NonBlankDrop(f[..|f| - 1]);
    }
  }

  lemma {:induction false} NonBlankMembers(f: File, line: string)
    ensures line in NonBlank(f) <==> line in f && line != ""
  {
    if f != [] {
      NonBlankMembers(f[..|f| - 1], line);
      assert f == f[..|f| - 1] + [f[|f| - 1]];
    }
  }

  lemma {:induction false} KeepMembers(f: File, removed: set<string>, line: string)
    ensures line in Keep(f, removed) <==> line in f && line !in removed
  {
    if f != [] {
      KeepMembers(f[..|f| - 1], removed, line);
      assert f == f[..|f| - 1] + [f[|f| - 1]];
    }
  }

  lemma {:induction false} LinesMembers(live: seq<Entry>, text: Entry -> string, e: Entry)
    requires e in live
    ensures text(e) in Lines(live, text)
  {
    if e != live[|live| - 1] {
      assert live == live[..|live| - 1] + [live[|live| - 1]];
      LinesMembers(live[..|live| - 1], text, e);
    }
  }

  lemma {:induction false} LineEntry(live: seq<Entry>, text: Entry -> string, line: string) returns (e: Entry)
    requires line in Lines(live, text)
    ensures e in live && text(e) == line
  {
    e := live[|live| - 1];
    if text(e) != line {
      e := LineEntry(live[..|live| - 1], text, line);
    }
  }

  lemma {:induction false} WithoutMembers(live: seq<Entry>, name: string, e: Entry)
    ensures e in Without(live, name) <==> e in live && e.volume.name != name
  {
    if live != [] {
      WithoutMembers(live[..|live| - 1], name, e);
      assert live == live[..|live| - 1] + [live[|live| - 1]];
    }
  }

  lemma {:induction false} KeepLines(live: seq<Entry>, text: Entry -> string, name: string, removed: set<string>)
    requires forall e :: e in live ==> (text(e) in removed <==> e.volume.name == name)
    ensures Keep(Lines(live, text), removed) == Lines(Without(live, name), text)
  {
    if live != [] {
      var front, last := live[..|live| - 1], live[|live| - 1];
      assert last in live && forall e :: e in front ==> e in live;
      KeepLines(front, text, name, removed);
      KeepSnoc(Lines(front, text), text(last), removed);
      LinesSnoc(Without(front, name), last, text);
      assert Without(front, name) + [] == Without(front, name);
    }
  }

  /** A filter by name leaves exactly the other projects' lines if and only if the name matches no
      other project's line. */
  lemma FilterExactly(f: File, live: seq<Entry>, text: Entry -> string, name: string)
    requires NonBlank(f) == Lines(live, text) && name != ""
    requires forall e :: e in live && e.volume.name == name ==> Matches(text(e), name)
    ensures NonBlank(WriteBack(Keep(f, Matching(f, name)))) == Lines(Without(live, name), text)
       <==> forall e :: e in live && e.volume.name != name ==> !Matches(text(e), name)
  {
    var removed := Matching(f, name);
    FilteredLines(f, live, text, name);
    if e :| e in live && e.volume.name != name && Matches(text(e), name) {
      WithoutMembers(live, name, e);
      LinesMembers(Without(live, name), text, e);
      LinesMembers(live, text, e);
      NonBlankMembers(f, text(e));
      KeepMembers(Lines(live, text), removed, text(e));
    } else {
      forall e | e in live ensures text(e) in removed <==> e.volume.name == name {
        LinesMembers(live, text, e);
        NonBlankMembers(f, text(e));
      }
      KeepLines(live, text, name, removed);
    }
  }

  lemma FilteredLines(f: File, live: seq<Entry>, text: Entry -> string, name: string)
    requires NonBlank(f) == Lines(live, text)
    ensures NonBlank(WriteBack(Keep(f, Matching(f, name)))) == Keep(Lines(live, text), Matching(f, name))
  {
    NonBlankKeep(f, Matching(f, name));
    NonBlankDrop(Keep(f, Matching(f, name)));
    assert NonBlank([""]) == [] by { assert [""][..0] == []; }
  }

  lemma OwnLinesMatch(e: Entry)
    ensures Matches(ProjectText(e), e.volume.name) && Matches(ProjidText(e), e.volume.name)
  {
    var p, n := ProjectText(e), e.volume.name;
    assert p[|p| - |n|..|p| - |n| + |n|] == n;
    assert OccursAt(p, n, |p| - |n|);
    assert ProjidText(e)[0..|n|] == n;
    assert OccursAt(ProjidText(e), n, 0);
  }

  // ---------------------------------------------------------------------------
  // Looking a name up
  // ---------------------------------------------------------------------------

  lemma LookupLine(name: string, e: Entry)
    requires ':' !in name && ':' !in e.volume.name
    ensures LineId(ProjidText(e), name) == if e.volume.name == name then Some(e.id) else None
  {
    var line, w := ProjidText(e), e.volume.name;
    RenderRoundTrip(e.id);
    assert line[|w|] == ':' && line[..|w|] == w;
    if (name + ":") <= line {
      assert line[|name|] == (name + ":")[|name|] == ':';
      assert forall k :: 0 <= k < |w| ==> line[k] == w[k];
      assert forall k :: 0 <= k < |name| ==> line[k] == (name + ":")[k] == name[k];
    }
    if w == name {
      assert line == (name + ":") + Render(e.id);
      assert line[|name| + 1..] == Render(e.id);
    }
  }

  lemma FirstSnoc(f: File, line: string, id: string -> Option<nat>)
    ensures First(f + [line], id) == if First(f, id).Some? then First(f, id) else id(line)
  {
    assert (f + [line])[..|f|] == f;
  }

  lemma {:induction false} FirstNonBlank(f: File, id: string -> Option<nat>)
    requires id("") == None
    ensures First(NonBlank(f), id) == First(f, id)
  {
    if f != [] {
      var front, last := f[..|f| - 1], f[|f| - 1];
      FirstNonBlank(front, id);
      FirstSnoc(NonBlank(front), last, id);
      assert NonBlank(front) + [] == NonBlank(front);
    }
  }

  ghost predicate NamedLive(live: seq<Entry>, name: string) {
    exists e :: e in live && e.volume.name == name
  }

  /** Every entry has another name and a larger id than those before it. */
  ghost predicate Distinct(live: seq<Entry>) {
    live != [] ==>
      && Distinct(live[..|live| - 1])
      && Newest(live[..|live| - 1], live[|live| - 1])
  }

  ghost predicate Newest(live: seq<Entry>, e: Entry) {
    forall d :: d in live ==> d.volume.name != e.volume.name && d.id < e.id
  }

  /** Names and directories as the provisioner makes them: a name is composed of the names of
      Kubernetes objects and underscores. */
  predicate GoodVolume(v: Volume) {
    VolumeName(v.name) && ':' !in v.parent
  }

  predicate VolumeName(name: string) {
    name != "" && forall c :: c in name ==> NameChar(c)
  }

  predicate NameChar(c: char) {
    'a' <= c <= 'z' || 'A' <= c <= 'Z' || '0' <= c <= '9' || c in "-_."
  }

  lemma {:induction false} FirstLive(live: seq<Entry>, text: Entry -> string, id: string -> Option<nat>, name: string)
    requires Distinct(live)
    requires forall e :: e in live ==> id(text(e)) == if e.volume.name == name then Some(e.id) else None
    ensures First(Lines(live, text), id).Some? <==> NamedLive(live, name)
    ensures forall e :: e in live && e.volume.name == name ==> First(Lines(live, text), id) == Some(e.id)
  {
    if live != [] {
      var front, last := live[..|live| - 1], live[|live| - 1];
      assert live == front + [last];
      FirstLive(front, text, id, name);
      FirstSnoc(Lines(front, text), text(last), id);
    }
  }

  /** The limit command finds the live project of that name, and nothing else. */
  lemma LookupLive(projid: File, live: seq<Entry>, name: string)
    requires NonBlank(projid) == Lines(live, ProjidText)
    requires ':' !in name && Distinct(live) && forall e :: e in live ==> GoodVolume(e.volume)
    ensures Lookup(projid, name).Some? <==> NamedLive(live, name)
    ensures forall e :: e in live && e.volume.name == name ==> Lookup(projid, name) == Some(e.id)
  {
    var id := line => LineId(line, name);
    assert id("") == None by { assert |name + ":"| > 0; }
    forall e | e in live ensures id(ProjidText(e)) == if e.volume.name == name then Some(e.id) else None {
      LookupLine(name, e);
    }
    FirstNonBlank(projid, id);
    FirstLive(live, ProjidText, id, name);
  }

  // ---------------------------------------------------------------------------
  // The tables agree
  // ---------------------------------------------------------------------------

  /** Both files hold exactly the live projects, line for line in the same order; names are
      distinct; and only live ids have a limit. */
  ghost predicate Agrees(t: Tables, live: seq<Entry>) {
    && Ordered(t.projects)
    && NonBlank(t.projects) == Lines(live, ProjectText)
    && NonBlank(t.projid) == Lines(live, ProjidText)
    && (forall e :: e in live ==> GoodVolume(e.volume))
    && Distinct(live)
    && (forall id :: LimitOf(t, id) != 0 ==> LiveId(live, id))
  }

  ghost predicate LiveId(live: seq<Entry>, id: nat) {
    exists e :: e in live && e.id == id
  }

  /** This volume's name, as a pattern, matches no other live volume's line. */
  ghost predicate Separated(live: seq<Entry>, name: string) {
    forall e :: e in live && e.volume.name != name ==>
      !Matches(ProjectText(e), name) && !Matches(ProjidText(e), name)
  }

  /** In tables that agree the next id can be read. */
  lemma AgreesCanAllot(t: Tables, live: seq<Entry>)
    requires Agrees(t, live)
    ensures CanAllot(t.projects)
  {
    var line := LastLine(t.projects);
    if line != "" {
      NonBlankMembers(t.projects, line);
      var e := LineEntry(live, ProjectText, line);
      assert ':' !in Dir(e.volume);
      ReadBack(e.id, Dir(e.volume));
    }
  }

  lemma LiveBelowNext(t: Tables, live: seq<Entry>, e: Entry)
    requires Agrees(t, live) && e in live
    ensures CanAllot(t.projects) && e.id < NextId(t.projects)
  {
    AgreesCanAllot(t, live);
    LinesMembers(live, ProjectText, e);
    NonBlankMembers(t.projects, ProjectText(e));
    ReadBack(e.id, Dir(e.volume));
    var j :| 0 <= j < |t.projects| && t.projects[j] == ProjectText(e);
    BelowNext(t.projects, j);
  }

  lemma AppendFiles(t: Tables, live: seq<Entry>, e: Entry)
    requires Agrees(t, live) && GoodVolume(e.volume) && CanAllot(t.projects) && e.id == NextId(t.projects)
    ensures var u := Append(t, e);
            && Ordered(u.projects)
            && NonBlank(u.projects) == Lines(live + [e], ProjectText)
            && NonBlank(u.projid) == Lines(live + [e], ProjidText)
  {
    ReadBack(e.id, Dir(e.volume));
    AllotOrdered(t.projects, Dir(e.volume));
    NonBlankSnoc(t.projects, ProjectText(e));
    NonBlankSnoc(t.projid, ProjidText(e));
    LinesSnoc(live, e, ProjectText);
    LinesSnoc(live, e, ProjidText);
  }

  lemma DistinctSnoc(live: seq<Entry>, e: Entry)
    requires Distinct(live) && Newest(live, e)
    ensures Distinct(live + [e])
  {
    assert (live + [e])[..|live|] == live;
  }

  /** The limit command finds the line just appended. */
  lemma LimitFound(t: Tables, live: seq<Entry>, e: Entry, size: nat)
    requires NonBlank(t.projid) == Lines(live, ProjidText) && Distinct(live)
    requires e in live && forall d :: d in live ==> GoodVolume(d.volume)
    ensures SetLimit(t, e.volume.name, size) == t.(limits := t.limits[e.id := size])
  {
    LookupLive(t.projid, live, e.volume.name);
  }

  /** A new volume gets an id that no live project has and whose limit is zero; the files then hold
      one line more each, with that id, and the limit of the new id is the size asked for. */
  lemma SetupAgrees(t: Tables, live: seq<Entry>, v: Volume, size: nat)
    requires Agrees(t, live) && GoodVolume(v) && !NamedLive(live, v.name)
    ensures CanAllot(t.projects)
    ensures var id := NextId(t.projects);
            && !LiveId(live, id) && LimitOf(t, id) == 0
            && Agrees(Setup(t, v, size), live + [Entry(id, v)])
            && Setup(t, v, size).limits == t.limits[id := size]
  {
    AgreesCanAllot(t, live);
    var e := Entry(NextId(t.projects), v);
    var live' := live + [e];
    forall d | d in live ensures d.id < e.id { LiveBelowNext(t, live, d); }
    assert Newest(live, e);
    DistinctSnoc(live, e);
    assert e in live' && forall d :: d in live' ==> d in live || d == e;
    AppendFiles(t, live, e);
    LimitFound(Append(t, e), live', e, size);
    LimitsSnoc(t, live, e, size);
  }

  lemma LimitsSnoc(t: Tables, live: seq<Entry>, e: Entry, size: nat)
    requires forall id :: LimitOf(t, id) != 0 ==> LiveId(live, id)
    ensures var t' := t.(limits := t.limits[e.id := size]);
            forall id :: LimitOf(t', id) != 0 ==> LiveId(live + [e], id)
  {
    var t' := t.(limits := t.limits[e.id := size]);
    forall id | LimitOf(t', id) != 0 ensures LiveId(live + [e], id) {
      if id == e.id {
        assert e in live + [e];
      } else {
        assert LimitOf(t, id) != 0;
        var d :| d in live && d.id == id;
        assert d in live + [e];
      }
    }
  }

  /** The lines of exactly the projects other than v are left. */
  ghost predicate RemovesOnly(t: Tables, live: seq<Entry>, v: Volume) {
    && NonBlank(Teardown(t, v).projects) == Lines(Without(live, v.name), ProjectText)
    && NonBlank(Teardown(t, v).projid) == Lines(Without(live, v.name), ProjidText)
  }

  /** Teardown removes exactly the torn-down volume from both files if and only if its name, as a
      pattern, matches no line of another live volume. */
  lemma TeardownExactly(t: Tables, live: seq<Entry>, v: Volume)
    requires Agrees(t, live) && VolumeName(v.name)
    ensures RemovesOnly(t, live, v) <==> Separated(live, v.name)
  {
    forall e | e in live && e.volume.name == v.name
      ensures Matches(ProjectText(e), v.name) && Matches(ProjidText(e), v.name)
    {
      OwnLinesMatch(e);
    }
    FilterExactly(t.projects, live, ProjectText, v.name);
    FilterExactly(t.projid, live, ProjidText, v.name);
  }

  /** The limits after a teardown: v's is zero, every other one is as it was. */
  lemma TeardownLimits(t: Tables, live: seq<Entry>, v: Volume)
    requires Agrees(t, live) && GoodVolume(v)
    ensures forall e :: e in live && e.volume.name == v.name ==> LimitOf(Teardown(t, v), e.id) == 0
    ensures forall k :: (forall e :: e in live && e.id == k ==> e.volume.name != v.name) ==>
              LimitOf(Teardown(t, v), k) == LimitOf(t, k)
  {
    LookupLive(t.projid, live, v.name);
  }

  lemma {:induction false} WithoutDistinct(live: seq<Entry>, name: string)
    requires Distinct(live)
    ensures Distinct(Without(live, name))
  {
    if live != [] {
      var front, last := live[..|live| - 1], live[|live| - 1];
      WithoutDistinct(front, name);
      var w := Without(front, name);
      forall d | d in w ensures d in front { WithoutMembers(front, name, d); }
      assert w + [] == w;
      DistinctSnoc(w, last);
    }
  }

  lemma TeardownAgrees(t: Tables, live: seq<Entry>, v: Volume)
    requires Agrees(t, live) && GoodVolume(v) && Separated(live, v.name)
    ensures Agrees(Teardown(t, v), Without(live, v.name))
  {
    var w := Without(live, v.name);
    TeardownExactly(t, live, v);
    FilterOrdered(t.projects, Matching(t.projects, v.name));
    WithoutDistinct(live, v.name);
    forall e ensures e in w <==> e in live && e.volume.name != v.name { WithoutMembers(live, v.name, e); }
    TeardownLimits(t, live, v);
    forall k | LimitOf(Teardown(t, v), k) != 0 ensures LiveId(w, k) {
      assert forall e :: e in live && e.id == k ==> e.volume.name != v.name;
      assert LimitOf(t, k) != 0;
      var e :| e in live && e.id == k;
      assert e in w;
    }
  }

  datatype Event = SetupEvent(v: Volume, size: nat) | TeardownEvent(v: Volume)

  function Step(t: Tables, e: Event): Tables {
    match e
    case SetupEvent(v, size) => Setup(t, v, size)
    case TeardownEvent(v) => Teardown(t, v)
  }

  function StepLive(t: Tables, live: seq<Entry>, e: Event): seq<Entry> {
    match e
    case SetupEvent(v, size) => if CanAllot(t.projects) then live + [Entry(NextId(t.projects), v)] else live
    case TeardownEvent(v) => Without(live, v.name)
  }

  /** Volume names are new when set up, and at a teardown the name matches no other live line. */
  ghost predicate Allowed(live: seq<Entry>, e: Event) {
    && GoodVolume(e.v)
    && (e.SetupEvent? ==> !NamedLive(live, e.v.name))
    && (e.TeardownEvent? ==> Separated(live, e.v.name))
  }

  function Run(t: Tables, es: seq<Event>): Tables
    decreases es
  {
    if es == [] then t else Run(Step(t, es[0]), es[1..])
  }

  function RunLive(t: Tables, live: seq<Entry>, es: seq<Event>): seq<Entry>
    decreases es
  {
    if es == [] then live else RunLive(Step(t, es[0]), StepLive(t, live, es[0]), es[1..])
  }

  /** Whatever the names are, and whatever each teardown removes by accident, the ids in the
      projects file strictly increase line by line after every run of the two scripts. */
  lemma {:induction false} ScriptIdsIncrease(t: Tables, es: seq<Event>)
    requires Ordered(t.projects)
    ensures Ordered(Run(t, es).projects)
    decreases es
  {
    if es != [] {
      match es[0] {
        case SetupEvent(v, size) =>
          AllotOrdered(t.projects, Dir(v));
        case TeardownEvent(v) =>
          FilterOrdered(t.projects, Matching(t.projects, v.name));
      }
      ScriptIdsIncrease(Step(t, es[0]), es[1..]);
    }
  }

  ghost predicate AllAllowed(t: Tables, live: seq<Entry>, es: seq<Event>)
    decreases es
  {
    es == [] || (Allowed(live, es[0]) && AllAllowed(Step(t, es[0]), StepLive(t, live, es[0]), es[1..]))
  }

  /** After every run of setups and teardowns whose names do not clash, the two files hold the live
      projects in one-to-one correspondence by id, and every id with a limit is live. */
  lemma {:induction false} TablesAgree(t: Tables, live: seq<Entry>, es: seq<Event>)
    requires Agrees(t, live) && AllAllowed(t, live, es)
    ensures Agrees(Run(t, es), RunLive(t, live, es))
    decreases es
  {
    if es != [] {
      match es[0] {
        case SetupEvent(v, size) => SetupAgrees(t, live, v, size);
        case TeardownEvent(v) => TeardownAgrees(t, live, v);
      }
      TablesAgree(Step(t, es[0]), StepLive(t, live, es[0]), es[1..]);
    }
  }

  lemma EmptyAgrees()
    ensures Agrees(Tables([], [], map[]), [])
  {
  }

  /** After every such run the next setup can read an id, that id is not in use, and it has no
      limit left from an earlier project. */
  lemma NextIdIsFree(t: Tables, live: seq<Entry>, es: seq<Event>)
    requires Agrees(t, live) && AllAllowed(t, live, es)
    ensures CanAllot(Run(t, es).projects)
    ensures var id := NextId(Run(t, es).projects);
            !LiveId(RunLive(t, live, es), id) && LimitOf(Run(t, es), id) == 0
  {
    TablesAgree(t, live, es);
    var u, live' := Run(t, es), RunLive(t, live, es);
    AgreesCanAllot(u, live');
    forall e | e in live' ensures e.id < NextId(u.projects) { LiveBelowNext(u, live', e); }
  }

  // ---------------------------------------------------------------------------
  // A name that matches another name
  // ---------------------------------------------------------------------------

  lemma MatchesWithin(pre: string, text: string, name: string)
    requires Matches(text, name)
    ensures Matches(pre + text, name)
  {
    var i :| 0 <= i <= |text| && OccursAt(text, name, i);
    var s := pre + text;
    assert forall j :: 0 <= j < |text| ==> s[|pre| + j] == text[j];
    assert OccursAt(s, name, |pre| + i);
  }

  lemma NameInLine(e: Entry, name: string)
    requires Matches(e.volume.name, name)
    ensures Matches(ProjectText(e), name)
  {
    var pre := Render(e.id) + ":" + e.volume.parent + "/";
    MatchesWithin(pre, e.volume.name, name);
    assert ProjectText(e) == pre + e.volume.name;
  }

  lemma LineVanishes(t: Tables, live: seq<Entry>, v: Volume, e: Entry)
    requires NonBlank(t.projects) == Lines(live, ProjectText)
    requires e in live && Matches(ProjectText(e), v.name)
    ensures ProjectText(e) !in NonBlank(Teardown(t, v).projects)
  {
    FilteredLines(t.projects, live, ProjectText, v.name);
    KeepMembers(Lines(live, ProjectText), Matching(t.projects, v.name), ProjectText(e));
    LinesMembers(live, ProjectText, e);
    NonBlankMembers(t.projects, ProjectText(e));
  }

  /** Tearing v down takes the line of every live project whose name v's matches with it, but leaves
      the limit of that project's id set. */
  lemma OverMatch(t: Tables, live: seq<Entry>, v: Volume, e: Entry)
    requires Agrees(t, live) && GoodVolume(v)
    requires e in live && e.volume.name != v.name && Matches(e.volume.name, v.name)
    ensures ProjectText(e) !in NonBlank(Teardown(t, v).projects)
    ensures LimitOf(Teardown(t, v), e.id) == LimitOf(t, e.id)
  {
    NameInLine(e, v.name);
    LineVanishes(t, live, v, e);
    forall d | d in live && d.id == e.id ensures d == e { SameId(live, d, e); }
    TeardownLimits(t, live, v);
  }

  lemma {:induction false} SameId(live: seq<Entry>, d: Entry, e: Entry)
    requires Distinct(live) && d in live && e in live && d.id == e.id
    ensures d == e
  {
    var front, last := live[..|live| - 1], live[|live| - 1];
    assert live == front + [last];
    if d != last && e != last {
      SameId(front, d, e);
    }
  }

  lemma {:induction false} KeepNone(live: seq<Entry>, text: Entry -> string, removed: set<string>)
    requires forall e :: e in live ==> text(e) in removed
    ensures Keep(Lines(live, text), removed) == []
  {
    if live != [] {
      assert live[|live| - 1] in live;
      KeepNone(live[..|live| - 1], text, removed);
      KeepSnoc(Lines(live[..|live| - 1], text), text(live[|live| - 1]), removed);
    }
  }

  lemma AllVanish(t: Tables, live: seq<Entry>, v: Volume)
    requires NonBlank(t.projects) == Lines(live, ProjectText)
    requires forall e :: e in live ==> Matches(ProjectText(e), v.name)
    ensures CanAllot(Teardown(t, v).projects) && NextId(Teardown(t, v).projects) == 1
  {
    FilteredLines(t.projects, live, ProjectText, v.name);
    forall e | e in live ensures ProjectText(e) in Matching(t.projects, v.name) {
      LinesMembers(live, ProjectText, e);
      NonBlankMembers(t.projects, ProjectText(e));
    }
    KeepNone(live, ProjectText, Matching(t.projects, v.name));
    var f := Teardown(t, v).projects;
    NonBlankMembers(f, LastLine(f));
  }

  lemma FirstSetup(w: Volume, m: nat)
    requires GoodVolume(w)
    ensures var t := Setup(Tables([], [], map[]), w, m);
            Agrees(t, [Entry(1, w)]) && LimitOf(t, 1) == m
  {
    EmptyAgrees();
    SetupAgrees(Tables([], [], map[]), [], w, m);
    assert [] + [Entry(1, w)] == [Entry(1, w)];
  }

  lemma SecondSetup(t: Tables, a: Entry, v: Volume, n: nat) returns (live: seq<Entry>)
    requires Agrees(t, [a]) && GoodVolume(v) && v.name != a.volume.name
    ensures Agrees(Setup(t, v, n), live) && LimitOf(Setup(t, v, n), a.id) == LimitOf(t, a.id)
    ensures a in live && forall e :: e in live ==> e == a || e.volume == v
  {
    assert a in [a];
    SetupAgrees(t, [a], v, n);
    live := [a] + [Entry(NextId(t.projects), v)];
    LiveBelowNext(t, [a], a);
  }

  /** The smallest such run, for every pair of names one of which matches the other: set w up, set
      v up, tear v down. Then w's limit is still on id 1, and id 1 is what the next volume gets. */
  lemma ClashingNames(v: Volume, w: Volume, m: nat, n: nat)
    requires GoodVolume(v) && GoodVolume(w) && v.name != w.name && Matches(w.name, v.name)
    ensures var t := Teardown(Setup(Setup(Tables([], [], map[]), w, m), v, n), v);
            CanAllot(t.projects) && NextId(t.projects) == 1 && LimitOf(t, 1) == m
  {
    var t1 := Setup(Tables([], [], map[]), w, m);
    FirstSetup(w, m);
    var live := SecondSetup(t1, Entry(1, w), v, n);
    var t := Setup(t1, v, n);
    OverMatch(t, live, v, Entry(1, w));
    forall e | e in live ensures Matches(ProjectText(e), v.name) {
      if e == Entry(1, w) {
        NameInLine(e, v.name);
      } else {
        OwnLinesMatch(e);
      }
    }
    AllVanish(t, live, v);
  }

  lemma DotMatches(a: string, c: char, b: string)
    ensures Matches(a + [c] + b, a + "." + b)
  {
    var w, v := a + [c] + b, a + "." + b;
    assert forall k :: 0 <= k < |v| && k != |a| ==> w[k] == v[k];
    assert OccursAt(w, v, 0);
  }

  /** So it is for every name with a dot and the name that has another character in its place. */
  lemma DotClash(parent: string, a: string, c: char, b: string, m: nat, n: nat)
    requires c != '.' && ':' !in parent && VolumeName(a + [c] + b) && VolumeName(a + "." + b)
    ensures var v, w := Volume(parent, a + "." + b), Volume(parent, a + [c] + b);
            var t := Teardown(Setup(Setup(Tables([], [], map[]), w, m), v, n), v);
            CanAllot(t.projects) && NextId(t.projects) == 1 && LimitOf(t, 1) == m
  {
    var v, w := Volume(parent, a + "." + b), Volume(parent, a + [c] + b);
    DotMatches(a, c, b);
    assert v.name[|a|] == '.' && w.name[|a|] == c;
    ClashingNames(v, w, m, n);
  }
}
