/**
 Durable steps and crashes, shared by the installer's three write-ahead protocols.

 A `Disk` has a number of durable steps left; the step after the last one is the crash. What a
 method promises when it crashes it therefore promises of every state between two of its steps.
 */
module Durable {

  /** How a command ends: completely, by a crash, or by a raised error. */
  datatype Outcome<+R> = Ok | Crashed | Refused(reason: R) {
    predicate IsFailure() {
      !Ok?
    }

    function PropagateFailure(): Outcome<R>
      requires !Ok?
    {
      this
    }
  }

  class Disk<F> {
    var files: F
    var life: nat

    constructor (files: F, life: nat)
      ensures this.files == files && this.life == life
    {
      this.files, this.life := files, life;
    }

    /** One atomic durable step: it happens completely, or the crash comes first. */
    method Write<R>(after: F) returns (r: Outcome<R>)
      modifies this
      ensures r.Ok? || r.Crashed?
      ensures r.Ok? ==> files == after && life + 1 == old(life)
      ensures r.Crashed? ==> files == old(files) && life == old(life) == 0
    {
      if life == 0 {
        return Crashed;
      }
      files, life := after, life - 1;
      return Ok;
    }

    /** A step that is not atomic: a crash during it leaves `torn` behind. */
    method WriteInPieces<R>(after: F, torn: F) returns (r: Outcome<R>)
      modifies this
      ensures r.Ok? || r.Crashed?
      ensures r.Ok? ==> files == after && life + 1 == old(life)
      ensures r.Crashed? ==> files == torn && life == old(life) == 0
    {
      if life == 0 {
        files := torn;
        return Crashed;
      }
      files, life := after, life - 1;
      return Ok;
    }
  }
}
