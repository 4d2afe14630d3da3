/** `pkg/db/utils.go`: conversion between an optional time and the
    database's nullable time. */
module NullTimes {
  import opened Wrappers
  import opened Times

  /** `sql.NullTime`: a time and whether it is present. */
  datatype NullTime = NullTime(time: Time, valid: bool)

  /** `sql.NullTime{}`, the database `NULL`. */
  const Null: NullTime := NullTime(ZeroTime, false)

  /** `FromNullTime`: the time when the value is valid, nothing otherwise,
      whatever time an invalid value carries. */
  function FromNullTime(s: NullTime): (t: Option<Time>)
    ensures t.None? <==> !s.valid
    ensures t.Some? ==> t.value == s.time
  {
    if s.valid then Some(s.time) else None
  }

  /** `ToNullTime`: a valid value holding the time, or `NULL` for nil. */
  function ToNullTime(t: Option<Time>): (s: NullTime)
    ensures s.valid <==> t.Some?
    ensures t.None? ==> s == Null
  {
    match t
    case None => Null
    case Some(x) => NullTime(x, true)
  }

  /** Storing an optional time and reading it back gives it back. */
  lemma FromToNullTime(t: Option<Time>)
    ensures FromNullTime(ToNullTime(t)) == t
  {
  }

  /** Reading a nullable time and storing it again preserves it exactly
      when it is valid or the canonical `NULL`: an invalid value that holds
      some other time comes back as `NULL`. */
  lemma ToFromNullTime(s: NullTime)
    ensures ToNullTime(FromNullTime(s)) == s <==> s.valid || s == Null
  {
  }

  /** An invalid value with a non-zero time is one that is not preserved. */
  lemma InvalidTimeDropped(w: WallClock)
    requires w != ZeroTime.wall
    ensures ToNullTime(FromNullTime(NullTime(Time(w, "UTC"), false))) != NullTime(Time(w, "UTC"), false)
  {
  }
}
