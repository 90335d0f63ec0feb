/**
 * The profile service: a table holding at most one profile per user id, looked up
 * by `getProfile` and written by the check-then-act upsert `updateProfile`.
 * The table is a map from user id to profile; the wall clock is a counter that
 * every reading advances.
 */
module Profiles {
  import opened Wrappers

  /** A calendar date as `java.time.LocalDate` holds it; no calendar rules are modelled. */
  datatype Date = Date(year: int, month: int, day: int)

  /** One row of the profiles table; the timestamps are readings of the service clock. */
  datatype Profile = Profile(
    userId: int,
    firstName: string,
    lastName: string,
    placeOfBirth: string,
    dateOfBirth: Date,
    createdAt: nat,
    updatedAt: nat)

  /** What `Optional.get()` raises when the repository found no row. */
  datatype Exception = NoSuchElementException

  /** The table keyed by user id, and the last clock reading handed out. */
  datatype ServiceState = ServiceState(profiles: map<int, Profile>, clock: nat)

  /** The message and the state `updateProfile` leaves behind. */
  datatype Upserted = Upserted(message: string, state: ServiceState)

  const UPDATED_MESSAGE := "Updated successfully"
  const ERROR_PREFIX := "Error: "

  /** The table's invariant: rows sit under their own user id and were stamped in order, in the past. */
  ghost predicate WellFormed(s: ServiceState) {
    forall id :: id in s.profiles ==>
      s.profiles[id].userId == id && s.profiles[id].createdAt <= s.profiles[id].updatedAt <= s.clock
  }

  /** The four fields `updateProfile` writes hold the given values. */
  predicate HasDetails(p: Profile, firstName: string, lastName: string, placeOfBirth: string, dateOfBirth: Date) {
    p.firstName == firstName && p.lastName == lastName && p.placeOfBirth == placeOfBirth && p.dateOfBirth == dateOfBirth
  }

  /**
   * `getProfile(id)`: `findByUserId(id).get()`. The declared result is a nullable
   * `Profile` (`None` stands for `null`), but the unconditional unwrap never yields
   * `null`: it returns the stored row when there is one and raises otherwise.
   */
  function GetProfile(profiles: map<int, Profile>, id: int): (r: Result<Option<Profile>, Exception>)
    ensures r.Success? <==> id in profiles
    ensures r.Success? ==> r.value == Some(profiles[id])
    ensures r.Failure? ==> r.error == NoSuchElementException
  {
    if id in profiles then Success(Some(profiles[id])) else Failure(NoSuchElementException)
  }

  /**
   * `updateProfile(...)` on the state `s`. With no row for `userId` a new row is
   * built, stamped by two clock readings (created, then updated); otherwise the
   * existing row gets the four fields and one fresh `updatedAt` reading. `saveFault`
   * is the text of the exception the repository's `save` raises, if it does: the
   * table then stays as it was and the exception is turned into an "Error: " message.
   */
  function Upsert(
    s: ServiceState, userId: int,
    firstName: string, lastName: string, placeOfBirth: string, dateOfBirth: Date,
    saveFault: Option<string>): (r: Upserted)
    // the message tells success from a caught exception, and nothing is thrown
    ensures saveFault.None? ==> r.message == UPDATED_MESSAGE
    ensures saveFault.Some? ==> r.message == ERROR_PREFIX + saveFault.value && r.state.profiles == s.profiles
    // the clock is read twice on insert and once on update
    ensures r.state.clock == s.clock + (if userId in s.profiles then 1 else 2)
    // no other user's row is read or written
    ensures r.state.profiles - {userId} == s.profiles - {userId}
    // insert: exactly one new row, keyed by userId, holding the arguments, created before updated
    ensures saveFault.None? && userId !in s.profiles ==>
      && r.state.profiles.Keys == s.profiles.Keys + {userId}
      && |r.state.profiles| == |s.profiles| + 1
      && var p := r.state.profiles[userId];
      && p.userId == userId
      && HasDetails(p, firstName, lastName, placeOfBirth, dateOfBirth)
      && s.clock < p.createdAt <= p.updatedAt == r.state.clock
    // update: the four fields overwritten, updatedAt restamped, userId and createdAt kept
    ensures saveFault.None? && userId in s.profiles ==>
      && r.state.profiles.Keys == s.profiles.Keys
      && var (old_, p) := (s.profiles[userId], r.state.profiles[userId]);
      && HasDetails(p, firstName, lastName, placeOfBirth, dateOfBirth)
      && p.userId == old_.userId && p.createdAt == old_.createdAt
      && p.updatedAt == r.state.clock > s.clock
  {
    if userId !in s.profiles then
      var profile := Profile(userId, firstName, lastName, placeOfBirth, dateOfBirth, s.clock + 1, s.clock + 2);
      Saved(s.profiles, userId, profile, s.clock + 2, saveFault)
    else
      var profile := s.profiles[userId].(firstName := firstName, lastName := lastName,
        placeOfBirth := placeOfBirth, dateOfBirth := dateOfBirth, updatedAt := s.clock + 1);
      Saved(s.profiles, userId, profile, s.clock + 1, saveFault)
  }

  /**
   * The tail of `updateProfile`: `save` writes `profile` as the row of `userId` and the
   * success message is returned, or `save` raises and the catch turns the exception
   * into an "Error: " message with the table as it was.
   */
  function Saved(
    profiles: map<int, Profile>, userId: int, profile: Profile, clock: nat, saveFault: Option<string>): Upserted
  {
    match saveFault
    case None => Upserted(UPDATED_MESSAGE, ServiceState(profiles[userId := profile], clock))
    case Some(e) => Upserted(ERROR_PREFIX + e, ServiceState(profiles, clock))
  }

  /** Upserting keeps the table's invariant. */
  lemma UpsertPreservesWellFormed(
    s: ServiceState, userId: int,
    firstName: string, lastName: string, placeOfBirth: string, dateOfBirth: Date,
    saveFault: Option<string>)
    requires WellFormed(s)
    ensures WellFormed(Upsert(s, userId, firstName, lastName, placeOfBirth, dateOfBirth, saveFault).state)
  {
  }

  /** After a successful upsert, `getProfile` returns a row holding exactly the arguments. */
  lemma UpsertThenGet(
    s: ServiceState, userId: int,
    firstName: string, lastName: string, placeOfBirth: string, dateOfBirth: Date)
    ensures var r := Upsert(s, userId, firstName, lastName, placeOfBirth, dateOfBirth, None);
      && GetProfile(r.state.profiles, userId).Success?
      && GetProfile(r.state.profiles, userId).value.Some?
      && var p := GetProfile(r.state.profiles, userId).value.value;
      && p.userId == (if userId in s.profiles then s.profiles[userId].userId else userId)
      && HasDetails(p, firstName, lastName, placeOfBirth, dateOfBirth)
  {
  }

  /**
   * Repeating a successful update with identical arguments keeps the stored field
   * values and the creation time; only `updatedAt` moves, strictly forward.
   */
  lemma UpsertTwice(
    s: ServiceState, userId: int,
    firstName: string, lastName: string, placeOfBirth: string, dateOfBirth: Date)
    ensures
      var first := Upsert(s, userId, firstName, lastName, placeOfBirth, dateOfBirth, None).state;
      var second := Upsert(first, userId, firstName, lastName, placeOfBirth, dateOfBirth, None).state;
      && userId in first.profiles && userId in second.profiles
      && first.profiles[userId].updatedAt < second.profiles[userId].updatedAt
      && second.profiles == first.profiles[userId := first.profiles[userId].(updatedAt := second.clock)]
  {
  }

  /**
   * The upsert reads only the caller's row: two tables that agree on that row
   * (and a clock that agrees) give the same message, clock and new row.
   */
  lemma UpsertReadsOnlyOwnRow(
    s: ServiceState, t: ServiceState, userId: int,
    firstName: string, lastName: string, placeOfBirth: string, dateOfBirth: Date,
    saveFault: Option<string>)
    requires s.clock == t.clock
    requires userId in s.profiles <==> userId in t.profiles
    requires userId in s.profiles ==> s.profiles[userId] == t.profiles[userId]
    ensures
      var rs := Upsert(s, userId, firstName, lastName, placeOfBirth, dateOfBirth, saveFault);
      var rt := Upsert(t, userId, firstName, lastName, placeOfBirth, dateOfBirth, saveFault);
      && rs.message == rt.message && rs.state.clock == rt.state.clock
      && (userId in rs.state.profiles <==> userId in rt.state.profiles)
      && (userId in rs.state.profiles ==> rs.state.profiles[userId] == rt.state.profiles[userId])
  {
  }

  /**
   * The service object: the repository's table and the clock, both updated in place.
   */
  class ProfileService {
    var profiles: map<int, Profile>
    var clock: nat

    function State(): ServiceState
      reads this
    {
      ServiceState(profiles, clock)
    }

    ghost predicate Valid()
      reads this
    {
      WellFormed(State())
    }

    constructor ()
      ensures profiles == map[] && clock == 0
      ensures Valid()
    {
      profiles := map[];
      clock := 0;
    }

    /** `OffsetDateTime.now()`: every reading is later than the previous one. */
    method Now() returns (t: nat)
      modifies this
      ensures profiles == old(profiles)
      ensures clock == old(clock) + 1 && t == clock
    {
      clock := clock + 1;
      t := clock;
    }

    /** `repo.save(profile)`: writes the row under its user id, or raises and writes nothing. */
    method Save(profile: Profile, fault: Option<string>)
      modifies this
      ensures clock == old(clock)
      ensures profiles == if fault.None? then old(profiles)[profile.userId := profile] else old(profiles)
    {
      if fault.None? {
        profiles := profiles[profile.userId := profile];
      }
    }

    /**
     * `updateProfile(userId, firstName, lastName, placeOfBirth, dateOfBirth)`:
     * the existence check, then either a new row or the existing row's setters,
     * then `save`, with any exception caught into the returned message.
     */
    method UpdateProfile(
      userId: int, firstName: string, lastName: string, placeOfBirth: string, dateOfBirth: Date,
      saveFault: Option<string>)
      returns (message: string)
      requires Valid()
      modifies this
      ensures Valid()
      ensures Upserted(message, State()) ==
              Upsert(old(State()), userId, firstName, lastName, placeOfBirth, dateOfBirth, saveFault)
    {
      ghost var before := State();
      if userId !in profiles {
        var createdAt := Now();
        var updatedAt := Now();
        var profile := Profile(userId, firstName, lastName, placeOfBirth, dateOfBirth, createdAt, updatedAt);
        Save(profile, saveFault);
        assert State() == Upsert(before, userId, firstName, lastName, placeOfBirth, dateOfBirth, saveFault).state;
      } else {
        var found := GetProfile(profiles, userId);
        var profile := found.value.value;
        var updatedAt := Now();
        profile := profile.(firstName := firstName, lastName := lastName, placeOfBirth := placeOfBirth,
                            dateOfBirth := dateOfBirth, updatedAt := updatedAt);
        Save(profile, saveFault);
        assert State() == Upsert(before, userId, firstName, lastName, placeOfBirth, dateOfBirth, saveFault).state;
      }
      message := match saveFault
        case None => UPDATED_MESSAGE
        case Some(e) => ERROR_PREFIX + e;
      UpsertPreservesWellFormed(before, userId, firstName, lastName, placeOfBirth, dateOfBirth, saveFault);
    }
  }
}
