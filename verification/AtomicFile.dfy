/** Atomic replacement of a file (internal/platform/atomicfile/atomicfile.go):
    a temporary file is filled, synced and renamed over the target; any call may
    fail and the process may die between any two calls. */
module AtomicFile {
  /** Modification time and size, as os.Stat reports them. */
  datatype Stamp = Stamp(modTime: int, size: int)

  datatype File<T> = File(data: seq<T>, stamp: Stamp)

  datatype Stage = Creating | Chmodding | Writing(n: nat) | Syncing | Closing | Renaming | Returning

  /** What goes wrong: a call reports an error, or the process dies just before
      a call takes effect. Writing(n) leaves n elements in the temporary file;
      Returning is after the rename, where no call is left to fail. */
  datatype Trouble = Fine | Fails(at: Stage) | Dies(at: Stage)

  datatype Outcome = Done | Failed | Died

  /** Does the target get replaced? */
  predicate Replaces(t: Trouble) {
    t == Fine || t.at == Returning
  }

  function OutcomeOf(t: Trouble): Outcome {
    match t
    case Fine => Done
    case Fails(at) => if at == Returning then Done else Failed
    case Dies(_) => Died
  }

  class Disk<T> {
    var files: map<string, File<T>>

    constructor ()
      ensures files == map[]
    {
      files := map[];
    }

    /** Write: whatever goes wrong, and wherever, the target holds either its
        old content or the whole new content, and nothing but the temporary
        file is touched besides. `removes` is whether the deferred clean-up
        works; `stamp` is what the file system will report. */
    method Write(path: string, tmp: string, data: seq<T>, trouble: Trouble, removes: bool, stamp: Stamp)
      returns (r: Outcome)
      requires tmp !in files && tmp != path
      modifies this
      ensures r == OutcomeOf(trouble)
      ensures trouble == Fine ==> r == Done
      ensures r == Done ==> files - {tmp} == old(files)[path := File(data, stamp)]
      ensures r == Failed ==> files - {tmp} == old(files)
      ensures files - {tmp} == old(files) || files - {tmp} == old(files)[path := File(data, stamp)]
      ensures files - {tmp} == if Replaces(trouble) then old(files)[path := File(data, stamp)] else old(files)
      ensures Replaces(trouble) || (r == Failed && removes) ==> tmp !in files
    {
      if trouble == Fails(Creating) {
        return Failed;
      }
      if trouble == Dies(Creating) {
        return Died;
      }
      files := files[tmp := File([], stamp)];
      r := Fill(tmp, data, trouble, stamp);
      if r == Done && trouble == Dies(Renaming) {
        r := Died;
      } else if r == Done && trouble != Fails(Renaming) {
        ghost var filled, f := files, files[tmp];
        files := files[path := files[tmp]] - {tmp};
        assert files - {tmp} == (filled - {tmp})[path := f];
        if trouble == Dies(Returning) {
          r := Died;
        }
        return;
      } else if r == Done {
        r := Failed;
      }
      if r == Failed && removes {
        files := files - {tmp};
      }
    }

    /** Chmod, write, sync and close the temporary file. */
    method Fill(tmp: string, data: seq<T>, trouble: Trouble, stamp: Stamp) returns (r: Outcome)
      requires tmp in files && files[tmp].stamp == stamp
      modifies this
      ensures files - {tmp} == old(files) - {tmp} && tmp in files
      ensures r == Done <==>
        trouble == Fine || trouble.at == Renaming || trouble.at == Returning || trouble.at == Creating
      ensures r == Done ==> files[tmp] == File(data, stamp)
      ensures r == Failed ==> trouble.Fails?
      ensures r == Died ==> trouble.Dies?
    {
      r := Done;
      if trouble == Fails(Chmodding) {
        return Failed;
      }
      if trouble == Dies(Chmodding) {
        return Died;
      }
      if trouble != Fine && trouble.at.Writing? {
        var n := if trouble.at.n <= |data| then trouble.at.n else |data|;
        files := files[tmp := File(data[..n], stamp)];
        return if trouble.Fails? then Failed else Died;
      }
      files := files[tmp := File(data, stamp)];
      if trouble != Fine && (trouble.at == Syncing || trouble.at == Closing) {
        return if trouble.Fails? then Failed else Died;
      }
    }
  }
}
