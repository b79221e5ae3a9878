/**
 * The onboarding screen's model: the user being created, and renaming it.
 */
module Onboarding {
  import opened Coding
  import opened Users

  /** The profile after renaming to `name`: an empty name changes nothing,
      any other name replaces the stored one and nothing else. */
  function Renamed(p: Profile, name: string): (q: Profile)
    ensures name == "" ==> q == p
    ensures name != "" ==> q.name == name && q == p.(name := name)
  {
    if name == "" then p else p.(name := ResolvedName(name))
  }

  /** Renaming twice to the same name is renaming once. */
  lemma RenameIdempotent(p: Profile, name: string)
    ensures Renamed(Renamed(p, name), name) == Renamed(p, name)
  {
  }

  /** Renaming to `b` after `a` is renaming to whichever name was last
      non-empty. */
  lemma RenameLastWins(p: Profile, a: string, b: string)
    ensures b != "" ==> Renamed(Renamed(p, a), b) == Renamed(p, b)
    ensures b == "" ==> Renamed(Renamed(p, a), b) == Renamed(p, a)
  {
  }

  /** The profile the screen starts with. */
  function InitialProfile(id: Uuid): (p: Profile)
    ensures ValidMeasurements(p.age, p.weight, p.height)
    ensures p.name == DefaultName && p.preferredUnits == Imperial
  {
    Profile(id, DefaultName, 30, 70.0, 170.0, Male, ModeratelyActive, Maintenance, Imperial)
  }

  class OnboardingViewModel {
    var user: User
    var isLoading: bool

    predicate Valid()
      reads this, user
    {
      user.Valid()
    }

    /** The new user's id is a parameter: it stands for the generated one. */
    constructor(id: Uuid)
      ensures Valid() && fresh(user)
      ensures user.Snapshot() == InitialProfile(id)
      ensures !isLoading
    {
      user := new User(id, "New User", 30, 70.0, 170.0, Male, ModeratelyActive, Maintenance, Imperial);
      isLoading := false;
    }

    /** An empty name leaves `user` as it was; any other name replaces it
        with a new user that has this name and every other field of the old
        one.  Rebuilding the user repeats the constructor's checks, so a
        non-empty name needs a current user that meets them; an empty name
        returns before the rebuild and needs nothing. */
    method UpdateUserName(name: string)
      requires name != "" ==> Valid()
      modifies this
      ensures old(Valid()) ==> Valid()
      ensures name != "" ==> Valid()
      ensures isLoading == old(isLoading)
      ensures name == "" ==> user == old(user)
      ensures name != "" ==> fresh(user)
      ensures user.Snapshot() == Renamed(old(user.Snapshot()), name)
    {
      if name == "" {
        return;
      }
      user := new User(
        user.id, name, user.age, user.weight, user.height,
        user.gender, user.activityLevel, user.nutritionGoal, user.preferredUnits);
    }
  }
}
