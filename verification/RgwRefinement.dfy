/**
 The publication protocol works on configurations as records; the source works
 on text. Reading a file as a record (`Abs`) turns the line edits into exactly
 the record updates the protocol uses.
 */
module RgwRefinement {
  import opened Common
  import opened RgwConf
  import opened RgwPublication

  /** The first line that, trimmed, starts with the prefix. */
  function FirstLine(prefix: string, lines: seq<string>): string
  {
    if lines == [] then ""
    else if prefix <= Trim(lines[0]) then Trim(lines[0])
    else FirstLine(prefix, lines[1..])
  }

  lemma {:induction false} FrontendIsFirstLine(lines: seq<string>)
    ensures FrontendLine(lines) == FirstLine(FRONTEND, lines)
  {
    if lines != [] {
      FrontendIsFirstLine(lines[1..]);
    }
  }

  /** An edit leaves the lines of every other writer as they are. */
  lemma {:induction false} EditKeepsOtherLines(e: Edit, prefix: string, lines: seq<string>)
    requires !(prefix <= Trim(e.line)) && !(e.prefix <= prefix) && !(prefix <= e.prefix)
    ensures FirstLine(prefix, EditLines(e, lines)) == FirstLine(prefix, lines)
  {
    if lines != [] {
      EditTail(e, lines);
      EditKeepsOtherLines(e, prefix, lines[1..]);
      PrefixesOfOne(e.prefix, prefix, Trim(lines[0]));
    }
  }

  /** The record a file stands for; `dirOf` tells which directory a frontend line's pair lives in. */
  function Abs(lines: seq<string>, dirOf: string -> Option<Dir>): Conf
  {
    Conf(AbsFront(FrontendLine(lines), dirOf), FirstLine(MON_HOST, lines), FirstLine(RUN_DIR, lines))
  }

  function AbsFront(line: string, dirOf: string -> Option<Dir>): Option<Frontend>
  {
    if line == "" then None else Some(Frontend(line, ParseFrontend(line).Some?, dirOf(line)))
  }

  lemma SettledIsNotRefreshed(front: string)
    requires Settled(front)
    ensures !(MON_HOST <= Trim(front)) && !(RUN_DIR <= Trim(front))
    ensures !(MON_HOST <= FRONTEND) && !(RUN_DIR <= FRONTEND) && !(FRONTEND <= MON_HOST) && !(FRONTEND <= RUN_DIR)
  {
    RefreshApartFromFront(MonEdit(""), front);
    RefreshApartFromFront(RunEdit(""), front);
  }

  /** Swapping the frontend line is the record update of `front`, whoever refreshed the file meanwhile. */
  lemma FrontEditRefines(lines: seq<string>, front: string, dirOf: string -> Option<Dir>)
    requires HasFrontend(lines) && Settled(front)
    ensures Abs(EditLines(FrontEdit(front), lines), dirOf) == Abs(lines, dirOf).(front := AbsFront(front, dirOf))
  {
    FrontendAfterEdit(lines, front);
    SettledIsNotRefreshed(front);
    EditKeepsOtherLines(FrontEdit(front), MON_HOST, lines);
    EditKeepsOtherLines(FrontEdit(front), RUN_DIR, lines);
  }

  /** The text a rollback writes stands for the record the protocol restores. */
  lemma RollbackRefines(current: seq<string>, prev: seq<string>, dirOf: string -> Option<Dir>)
    ensures Abs(RolledBackText(prev, current), dirOf) == RestoredConf(Some(Abs(current, dirOf)), Abs(prev, dirOf))
  {
    FrontendLineSettled(prev);
    FrontendLineSettled(current);
    if HasFrontend(current) {
      FrontEditRefines(current, FrontendLine(prev), dirOf);
    }
  }

  /** The text a publication writes stands for the desired frontend, among the current other lines if the file had a
      frontend before and alone in a rendered file if it had none. */
  lemma PublicationRefines(
      current: seq<string>, monitors: string, runDir: string, l: Listeners, dirOf: string -> Option<Dir>)
    requires ValidListeners(l)
    ensures var desired := Some(Frontend(RenderFrontend(l), true, dirOf(RenderFrontend(l))));
            var conf := Abs(PublishedText(current, monitors, runDir, l), dirOf);
            && conf.front == desired
            && (Abs(current, dirOf).front.Some? ==> conf == Abs(current, dirOf).(front := desired))
            && (Abs(current, dirOf).front.None? ==> conf == Abs(Render(monitors, runDir, l), dirOf))
  {
    RenderedFrontendParses(l);
    FrontendLineSettled(current);
    if HasFrontend(current) {
      FrontEditRefines(current, RenderFrontend(l), dirOf);
    } else {
      RenderedFileHasFrontend(monitors, runDir, l);
    }
  }

  predicate HasLine(prefix: string, lines: seq<string>)
  {
    exists i :: 0 <= i < |lines| && prefix <= Trim(lines[i])
  }

  /** A line that is written where its owner had one is the line read back. */
  lemma {:induction false} EditWrites(prefix: string, line: string, lines: seq<string>)
    requires prefix <= Trim(line) && HasLine(prefix, lines)
    ensures FirstLine(prefix, EditLines(Edit(prefix, line), lines)) == Trim(line)
  {
    EditTail(Edit(prefix, line), lines);
    if !(prefix <= Trim(lines[0])) {
      var i :| 0 <= i < |lines| && prefix <= Trim(lines[i]);
      assert lines[1..][i - 1] == lines[i];
      EditWrites(prefix, line, lines[1..]);
    }
  }

  predicate EndsSolid(s: string)
  {
    s != "" && !IsSpace(s[|s| - 1])
  }

  /** The refreshes write what they are given, each its own line and no other. */
  lemma RefreshWrites(monitors: string, runDir: string, lines: seq<string>)
    requires EndsSolid(monitors) && EndsSolid(runDir)
    requires HasLine("mon host = ", lines) && HasLine("run dir = ", lines)
    ensures FirstLine("mon host = ", EditLines(MonEdit(monitors), lines)) == "mon host = " + monitors
    ensures FirstLine("run dir = ", EditLines(MonEdit(monitors), lines)) == FirstLine("run dir = ", lines)
    ensures FirstLine("run dir = ", EditLines(RunEdit(runDir), lines)) == "run dir = " + runDir
    ensures FirstLine("mon host = ", EditLines(RunEdit(runDir), lines)) == FirstLine("mon host = ", lines)
  {
    TrimFixed(MON_HOST + monitors);
    TrimFixed(RUN_DIR + runDir);
    MonApartFromRun(monitors, runDir);
    EditWrites(MON_HOST, MON_HOST + monitors, lines);
    EditWrites(RUN_DIR, RUN_DIR + runDir, lines);
    EditKeepsOtherLines(MonEdit(monitors), RUN_DIR, lines);
    EditKeepsOtherLines(RunEdit(runDir), MON_HOST, lines);
  }

  /** A refresh never touches the frontend. */
  lemma RefreshRefines(e: Edit, lines: seq<string>, dirOf: string -> Option<Dir>)
    requires IsRefresh(e)
    ensures Abs(EditLines(e, lines), dirOf).front == Abs(lines, dirOf).front
  {
    RefreshApartFromFront(e, "");
    FrontendIsFirstLine(lines);
    FrontendIsFirstLine(EditLines(e, lines));
    EditKeepsOtherLines(e, FRONTEND, lines);
  }
}
