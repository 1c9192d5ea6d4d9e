/** FIFO delivery from the delivery lease's own conditions: each live port runs inside a body that holds the lease. */
module LeaseOrder {
  import opened Prelude
  import C = Custody
  import O = CustodyOrder
  import L = Lease

  /**
     The office's events beside the lease's: before the i-th event the lease has gone through history(i), a
     permitted run, and every port that is live then has its own token's body in progress.
   */
  ghost predicate Guarded(cfg: C.Config, events: seq<C.Event>, lease: nat, history: nat -> seq<L.Event>, token: nat -> L.Token) {
    && (forall p, q :: p != q ==> token(p) != token(q))
    && forall i :: 0 <= i <= |events| ==> Inside(C.Run(cfg, events[..i]), lease, history(i), token)
  }

  ghost predicate Inside(s: C.Sys, lease: nat, locks: seq<L.Event>, token: nat -> L.Token) {
    && L.AllAllowed(lease, locks)
    && forall p :: p in s.ports && s.ports[p].Live() ==> token(p) in L.Run(lease, locks).bodies
  }

  lemma OneInside(s: C.Sys, lease: nat, locks: seq<L.Event>, token: nat -> L.Token)
    requires lease >= 3 && Inside(s, lease, locks, token) && forall p, q :: p != q ==> token(p) != token(q)
    ensures O.AtMostOneLive(s)
  {
    hide L.AllAllowed, L.Run;
    forall p, q | p in s.ports && q in s.ports && s.ports[p].Live() && s.ports[q].Live() ensures p == q {
      L.NoOverlap(lease, locks, token(p), token(q));
    }
  }

  /**
   As long as the lease's conditions hold, at most one frame is past ingress and unsettled, and openers are
   called in the order of admission.
   */
  lemma FifoUnderLease(cfg: C.Config, events: seq<C.Event>, lease: nat, history: nat -> seq<L.Event>, token: nat -> L.Token)
    requires lease >= 3 && Guarded(cfg, events, lease, history, token)
    ensures var s := C.Run(cfg, events);
      && |s.lists.processing| + |s.lists.opening| <= 1
      && IsSubsequence(s.started, s.admitted)
  {
    hide C.Run, Inside, O.AtMostOneLive;
    forall i | 0 <= i <= |events| ensures O.AtMostOneLive(C.Run(cfg, events[..i])) {
      OneInside(C.Run(cfg, events[..i]), lease, history(i), token);
    }
    O.FifoEffects(cfg, events);
  }
}
