/** The rotated log as it runs: its fields, the directory of numbered files, and the renaming loop. */
module Cyclic {
  import opened Rotation

  class Cyclic {
    var nbackups: nat
    var maxsize: nat
    var files: Files
    /** File 0 is open for writing, at its end. */
    var open: bool
    var flock: bool

    function Contents(): Log
      reads this
    {
      Log(nbackups, maxsize, files, open, flock)
    }

    /** A log over files that may already be there; a size of zero is refused before this. */
    constructor (nbackups: nat, maxsize: nat, files: Files)
      requires nbackups < TWO_32 && maxsize > 0
      ensures Contents() == Log(nbackups, maxsize, files, false, false) && Valid(Contents())
    {
      this.nbackups := nbackups;
      this.maxsize := maxsize;
      this.files := files;
      open := false;
      flock := false;
    }

    /** Close the current file, move each file up by one, the highest first, and open a new file 0. */
    method OpenFilesize(opens: bool) returns (ok: bool)
      requires Valid(Contents())
      modifies this`files, this`open
      ensures ok == opens
      ensures Contents() == OpenNew(old(Contents()), opens)
    {
      open := false;
      var i := First(nbackups);
      while i >= 0
        invariant !open
        invariant Shift(files, if i < 0 then 0 else i + 1) == Shift(old(files), Moves(nbackups))
      {
        if i in files {
          files := Rename(files, i, Above(i));
        }
        i := i - 1;
      }
      assert Shift(files, 0) == files;
      if !opens {
        return false;
      }
      files := files[0 := []];
      open := true;
      ok := true;
    }

    /** True when a file is open to write to. */
    method CheckOpenFile(opens: bool) returns (ok: bool)
      requires Valid(Contents())
      modifies this`files, this`open
      ensures Contents() == (if Due(old(Contents())) then OpenNew(old(Contents()), opens) else old(Contents()))
      ensures ok == open == Written(old(Contents()), opens)
    {
      if flock && open {
        return true;
      }
      if !open || Bytes(files[0]) > maxsize {
        ok := OpenFilesize(opens);
        return;
      }
      ok := true;
    }

    /** True when the message was written. */
    method Printf(msg: string, opens: bool) returns (written: bool)
      requires Valid(Contents())
      modifies this`files, this`open
      ensures Contents() == Print(old(Contents()), msg, opens)
      ensures Valid(Contents())
      ensures written == Written(old(Contents()), opens)
    {
      written := CheckOpenFile(opens);
      if written {
        files := files[0 := files[0] + [Line(msg)]];
      }
    }

    method FileLock()
      requires Valid(Contents())
      modifies this`flock
      ensures Contents() == Next(old(Contents()), Lock)
    {
      flock := true;
    }

    method FileUnlock()
      requires Valid(Contents())
      modifies this`flock
      ensures Contents() == Next(old(Contents()), Unlock)
    {
      flock := false;
    }
  }

  /** Setting up a log is refused, with no object, for a size of zero. */
  method InitFilesize(nbackups: nat, maxsize: nat, files: Files) returns (cyc: Cyclic?)
    requires nbackups < TWO_32
    ensures cyc == null <==> maxsize == 0
    ensures cyc != null ==> fresh(cyc) && cyc.Contents() == Log(nbackups, maxsize, files, false, false)
  {
    if maxsize == 0 {
      return null;
    }
    cyc := new Cyclic(nbackups, maxsize, files);
  }
}
