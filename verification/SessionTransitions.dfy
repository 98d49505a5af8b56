/**
  The session data rules (live_session.py) beside the replay journal's: two separately written tables of
  transitions and two separately written rules about time, and exactly where they agree.
 */
module SessionTransitions {
  import opened Prelude
  import opened Digests
  import opened CivilTime
  import opened Instants
  import J = ReplayJournal

  /** STATES: two states before the journal's own six. */
  datatype SessionState = UNAVAILABLE | VALIDATED_DATA | Journalled(state: J.State)

  /** TRANSITIONS. */
  const TRANSITIONS: set<(SessionState, SessionState)> := {
    (VALIDATED_DATA, Journalled(J.RESERVED)),
    (Journalled(J.RESERVED), Journalled(J.RUNNING)), (Journalled(J.RESERVED), Journalled(J.FAILED)),
    (Journalled(J.RESERVED), Journalled(J.CANCELLED)), (Journalled(J.RESERVED), Journalled(J.EXPIRED)),
    (Journalled(J.RUNNING), Journalled(J.COMPLETED)), (Journalled(J.RUNNING), Journalled(J.FAILED)),
    (Journalled(J.RUNNING), Journalled(J.CANCELLED)), (Journalled(J.RUNNING), Journalled(J.EXPIRED))}

  datatype Session = Session(state: SessionState, issued: int, expires: int)

  /** `_session`: a session lives inside its binding's window. */
  predicate ValidSession(w: Primitives, s: Session, b: J.Binding)
    requires J.ValidBinding(w, b)
  {
    w.Instant(b.notBefore) <= s.issued < s.expires <= w.Instant(b.notAfter)
  }

  /** What `transition_candidate` will describe: EXPIRED exactly when the session is over. */
  predicate Candidate(s: Session, next: SessionState, instant: int) {
    && (s.state, next) in TRANSITIONS && s.issued <= instant
    && (next == Journalled(J.EXPIRED) <==> instant >= s.expires)
  }

  /** `validate_session`. */
  predicate Current(s: Session, instant: int) {
    s.issued <= instant < s.expires && s.state != Journalled(J.EXPIRED)
  }

  /** Between journal states the two tables are the same. */
  lemma {:induction false} TablesAgree(a: J.State, b: J.State)
    ensures (Journalled(a), Journalled(b)) in TRANSITIONS <==> J.Edge(a, b)
  {
  }

  /** A session that may move without expiring is current. */
  lemma {:induction false} MovingMeansCurrent(s: Session, next: SessionState, instant: int)
    requires Candidate(s, next, instant) && next != Journalled(J.EXPIRED)
    ensures Current(s, instant)
  {
    assert (Journalled(J.EXPIRED), next) !in TRANSITIONS;
  }

  /** Every reservation the data rules describe is one the journal grants to an unused key. */
  lemma {:induction false} ReservationAgrees(w: Primitives, b: J.Binding, s: Session, instant: int)
    requires J.ValidBinding(w, b) && ValidSession(w, s, b) && Candidate(s, Journalled(J.RESERVED), instant)
    ensures s.state == VALIDATED_DATA && J.RecordRules(w, None, b, J.RESERVED, instant) == Ok(())
  {
  }

  /**
    The rules about time do not agree everywhere: a session may end before its binding's window, and an
    EXPIRED described in between is refused by the journal as too early.  That is the only disagreement.
   */
  lemma {:induction false} JournalGrantsExactly(w: Primitives, b: J.Binding, s: Session, prior: J.Row, next: J.State, instant: int)
    requires J.ValidBinding(w, b) && ValidSession(w, s, b) && s.state == Journalled(prior.state)
    requires prior.bindingDigest == J.BindingDigest(w, b) && w.IsTime(prior.observedAt) && w.Instant(prior.observedAt) <= instant
    requires Candidate(s, Journalled(next), instant)
    ensures J.RecordRules(w, Some(prior), b, next, instant).Ok? <==> !(next == J.EXPIRED && instant < w.Instant(b.notAfter))
  {
    TablesAgree(prior.state, next);
  }

  /** Conversely the journal may still grant other moves when the session is over; the data rules then describe only EXPIRED. */
  lemma {:induction false} DescribedExactly(w: Primitives, b: J.Binding, s: Session, prior: J.Row, next: J.State, instant: int)
    requires J.ValidBinding(w, b) && ValidSession(w, s, b) && s.state == Journalled(prior.state) && w.IsTime(prior.observedAt)
    requires next != J.RESERVED && J.RecordRules(w, Some(prior), b, next, instant).Ok? && s.issued <= instant
    ensures Candidate(s, Journalled(next), instant) <==> !(instant >= s.expires && next != J.EXPIRED)
  {
    TablesAgree(prior.state, next);
  }

  // ---------------------------------------------------------------- the sessions on which they part

  /** A live row of this binding, and a session of the same state that ends before the binding's window does. */
  predicate EndsEarly(w: Primitives, b: J.Binding, s: Session, prior: J.Row, instant: int) {
    && J.ValidBinding(w, b) && ValidSession(w, s, b) && s.state == Journalled(prior.state) && prior.state == J.RUNNING
    && prior.bindingDigest == J.BindingDigest(w, b) && w.IsTime(prior.observedAt) && w.Instant(prior.observedAt) <= instant
    && s.expires <= instant < w.Instant(b.notAfter)
  }

  /** When such a session is over, the data rules describe EXPIRED and the journal refuses it as too early. */
  lemma {:induction false} EarlyExpiry(w: Primitives, b: J.Binding, s: Session, prior: J.Row, instant: int)
    requires EndsEarly(w, b, s, prior, instant)
    ensures Candidate(s, Journalled(J.EXPIRED), instant)
    ensures J.RecordRules(w, Some(prior), b, J.EXPIRED, instant) == Refused("REPLAY_EARLY_EXPIRY")
  {
    assert (Journalled(J.RUNNING), Journalled(J.EXPIRED)) in TRANSITIONS;
  }

  /** Conversely the journal still grants FAILED, which the data rules no longer describe. */
  lemma {:induction false} LateFailure(w: Primitives, b: J.Binding, s: Session, prior: J.Row, instant: int)
    requires EndsEarly(w, b, s, prior, instant)
    ensures J.RecordRules(w, Some(prior), b, J.FAILED, instant) == Ok(())
    ensures !Candidate(s, Journalled(J.FAILED), instant)
  {
  }

  /** A full hour of 2026-01-01, in seconds of the epoch. */
  function Hour(h: int): int {
    SecondsOf(Moment(Date(2026, 1, 1), h, 0, 0))
  }

  lemma {:induction false} ReadsHour(h: int)
    requires 0 <= h <= 23
    ensures RequireTime(FormatUtc(Hour(h))) == Some(Hour(h) * 1000000)
  {
    MomentOfSeconds(Moment(Date(2026, 1, 1), h, 0, 0));
    ParseOfFormat(Hour(h));
    FormatOfFields(FormatUtc(Hour(h)));
    MomentOfSeconds(Fields(FormatUtc(Hour(h))).value);
    WholeTimesAgree(FormatUtc(Hour(h)));
  }

  /** The binding of a window. */
  function Window(opens: string, closes: string, digest: string): J.Binding {
    J.Binding("n", "t", "e", "p", "s", digest, digest, digest, digest, opens, closes)
  }

  lemma {:induction false} WindowIsValid(w: Primitives, opens: string, closes: string, digest: string)
    requires IsDigest(digest) && w.IsTime(opens) && w.IsTime(closes) && w.Instant(opens) < w.Instant(closes)
    ensures J.ValidBinding(w, Window(opens, closes, digest))
  {
  }

  /** One of them: a window from nine to two o'clock, and in it a session of one hour, looked at when it is over. */
  lemma {:induction false} OneHourSession(w: Primitives) returns (b: J.Binding, s: Session, prior: J.Row)
    requires w.DigestValued() && forall t :: w.time(t) == RequireTime(t)
    ensures b.notBefore == FormatUtc(Hour(9)) && b.notAfter == FormatUtc(Hour(14))
    ensures s == Session(Journalled(J.RUNNING), Hour(9) * 1000000, Hour(10) * 1000000)
    ensures EndsEarly(w, b, s, prior, Hour(10) * 1000000)
  {
    var opens, closes := FormatUtc(Hour(9)), FormatUtc(Hour(14));
    ReadsHour(9);
    ReadsHour(14);
    b := Window(opens, closes, w.hash(""));
    WindowIsValid(w, opens, closes, w.hash(""));
    s := Session(Journalled(J.RUNNING), Hour(9) * 1000000, Hour(10) * 1000000);
    prior := J.Row(2, w.hash(""), J.ReplayKey(w, b), J.BindingDigest(w, b), J.RUNNING, opens, None);
  }
}
