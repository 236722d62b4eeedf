/** The replace-by-rename step of WriteUpdateState and what a crash inside it leaves behind. */
module Store {
  import opened Text
  import opened FlatJson
  import opened Document
  import opened StateFile
  import opened StateFileProperties

  /** Contents of the state file and of its `.tmp` neighbour. */
  datatype Files = Files(main: Option<string>, temp: Option<string>)

  /**
   * How the file system answers one replacement: whether the temp file opens, how many
   * characters reach it, whether the old file can be deleted, whether the move succeeds.
   */
  datatype Io = Io(opens: bool, flushed: nat, deletes: bool, moves: bool)

  function Flushed(doc: string, io: Io): string {
    if io.flushed <= |doc| then doc[..io.flushed] else doc
  }

  /** The move needs the old file out of the way. */
  predicate MoveWorks(f: Files, io: Io) {
    io.moves && (io.deletes || f.main == None)
  }

  /** The files after `step` of the five steps: open, write, delete, move, clean up. */
  function AfterSteps(f: Files, doc: string, io: Io, step: nat): Files {
    if step == 0 || !io.opens then f
    else if step == 1 then Files(f.main, Some(""))
    else if step == 2 then Files(f.main, Some(Flushed(doc, io)))
    else
      var kept := if io.deletes then None else f.main;
      if step == 3 then Files(kept, Some(Flushed(doc, io)))
      else if MoveWorks(f, io) then Files(Some(Flushed(doc, io)), None)
      else if step == 4 then Files(kept, Some(Flushed(doc, io)))
      else Files(kept, None)
  }

  class StateStore {
    var main: Option<string>
    var temp: Option<string>

    ghost function Contents(): Files
      reads this
    {
      Files(main, temp)
    }

    /** WriteUpdateState: its last two arguments are the file system's answers. */
    method WriteUpdateState(hash: Hash, s: UpdateState, io: Io) returns (ok: bool)
      modifies this
      ensures Contents() == AfterSteps(old(Contents()), Printed(hash, s), io, 5)
      ensures ok == (io.opens && MoveWorks(old(Contents()), io))
      ensures ok <==> io.opens && io.moves && (io.deletes || old(main) == None)
      ensures !io.opens ==> main == old(main) && temp == old(temp)
      ensures ok ==> main.Some? && main.value == Flushed(Printed(hash, s), io) && temp == None
      ensures io.opens && !ok ==> main == (if io.deletes then None else old(main)) && temp == None
    {
      hide Printed, Flushed;
      var json := BuildDocument(hash, s);
      if !io.opens { return false; }
      temp := Some("");
      temp := Some(Flushed(json, io));
      ghost var before := old(Contents());
      if io.deletes { main := None; }
      if io.moves && main == None {
        main, temp := temp, None;
        ok := true;
      } else {
        temp := None;
        ok := false;
      }
    }
  }

  /**
   * A crash after any step leaves the old document in place or the new one in one of the two
   * files, provided the temp file is written whole and the move finds its place free and works.
   */
  lemma CrashKeepsADocument(f: Files, doc: string, io: Io, step: nat)
    requires step <= 5 && io.flushed >= |doc| && MoveWorks(f, io)
    ensures var g := AfterSteps(f, doc, io, step);
            g.main == f.main || g.main == Some(doc) || g.temp == Some(doc)
  {
    assert doc[..|doc|] == doc;
  }

  /** Both files are lost exactly when the old file was deleted and the move then failed. */
  lemma BothFilesLost(f: Files, doc: string, io: Io)
    requires f.main.Some?
    ensures AfterSteps(f, doc, io, 5) == Files(None, None) <==> io.opens && io.deletes && !io.moves
  {
  }

  /** A replacement never installs a document that validates but reads differently. */
  lemma ReplacedFileIsWholeOrInvalid(f: Files, hash: Hash, s: UpdateState, io: Io)
    requires CleanState(s) && EscapeClosed(Digest(hash, s))
    requires io.opens && MoveWorks(f, io)
    ensures var g := AfterSteps(f, Printed(hash, s), io, 5);
            && g.main.Some? && g.temp == None
            && (Valid(hash, Parsed(g.main.value)) ==> Parsed(g.main.value) == Parsed(Printed(hash, s)))
  {
    hide Printed, Valid, Parsed, EscapeClosed, Digest;
    TornWrite(hash, s, Flushed(Printed(hash, s), io));
  }
}
