/** The kernel semaphore of kernel_cc.c as code over its condition variable. */
module KernelLockCode {
  import opened Rings
  import K = KernelLock
  import opened CondVarCode

  class KernelSemaphore {
    var sem: int
    const cv: CondVar

    constructor (cv: CondVar)
      requires cv.Valid()
      ensures this.cv == cv && sem == 1
    {
      sem := 1;
      this.cv := cv;
    }

    /** What the fields are of a state of the lock protocol. */
    ghost predicate Shows(s: K.State)
      reads this, cv, cv.nodes
    {
      s.sem == sem && s.kcv == cv.View()
    }

    /** kernel_lock, and the end of kernel_wait_wchan: one look at the semaphore. */
    method Look(node: Node, t: C.Tid, ghost s: K.State) returns (taken: bool)
      requires cv.Valid() && IsRing([node]) && node !in cv.ring && t !in cv.waiters
      requires K.CvsOk(s) && t in s.pcs && Shows(s)
      modifies this`sem, cv, cv.nodes`next, cv.nodes`prev, node`next, node`prev
      ensures cv.Valid() && Shows(K.Take(s, t)) && (taken <==> K.Take(s, t).pcs[t] == K.Holding)
    {
      hide C.Inv, IsRing;
      if sem <= 0 {
        cv.Enqueue(node, t);
        taken := false;
      } else {
        sem := sem - 1;
        taken := true;
      }
    }

    /** kernel_unlock, kernel_sleep, and the start of kernel_wait_wchan: giving the kernel up. */
    method GiveUp(t: C.Tid, pc: K.Pc, ghost s: K.State)
      requires cv.Valid() && K.CvsOk(s) && Shows(s)
      modifies this`sem, cv, cv.nodes`next, cv.nodes`prev
      ensures cv.Valid() && Shows(K.GiveUp(s, t, pc))
    {
      hide C.Inv, IsRing;
      sem := sem + 1;
      cv.CvSignal();
    }
  }
}
