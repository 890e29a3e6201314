/** Users, their roles, and the notification preference that the model's
    `created` hook gives every new user (app/Models/User.php). */
module Users {
  import opened Common

  /** A user as the controllers see it; `role` is free text ("Admin",
      "Analyst", ...), compared exactly. */
  datatype User = User(id: nat, name: string, email: string, role: string)

  datatype Preference = Preference(
    userId: nat,
    emailAlerts: bool,
    browserNotifications: bool,
    soundNotifications: bool,
    criticalAlertsOnly: bool,
    alertTypes: seq<string>)

  const AdminRole: string := "Admin"
  const AnalystRole: string := "Analyst"

  /** The record the `created` hook inserts for a new user. */
  function DefaultPreference(userId: nat): Preference {
    Preference(userId, true, true, true, false, ["critical", "high", "medium", "low"])
  }

  function BelongsTo(userId: nat): Preference -> bool {
    (p: Preference) => p.userId == userId
  }

  function PreferencesOf(prefs: seq<Preference>, userId: nat): seq<Preference> {
    Filter(prefs, BelongsTo(userId))
  }

  /** Primary keys are unique. */
  predicate UniqueIds(users: seq<User>) {
    forall i, j :: 0 <= i < j < |users| ==> users[i].id != users[j].id
  }

  /** Every user has exactly one preference record, and every preference
      record belongs to a user. */
  ghost predicate OnePreferenceEach(users: seq<User>, prefs: seq<Preference>) {
    && (forall u :: u in users ==> |PreferencesOf(prefs, u.id)| == 1)
    && (forall p :: p in prefs ==> exists u :: u in users && u.id == p.userId)
  }

  /** Creating a user with a fresh id and running the hook keeps every user at
      exactly one preference, and the new user's one preference is the default. */
  lemma {:induction false} CreatedHookGivesOnePreference(users: seq<User>, prefs: seq<Preference>, u: User)
    requires OnePreferenceEach(users, prefs)
    requires forall v :: v in users ==> v.id != u.id
    ensures OnePreferenceEach(users + [u], prefs + [DefaultPreference(u.id)])
    ensures PreferencesOf(prefs + [DefaultPreference(u.id)], u.id) == [DefaultPreference(u.id)]
  {
    var d := DefaultPreference(u.id);
    FilterSnoc(prefs, d, BelongsTo(u.id));
    FilterNone(prefs, BelongsTo(u.id));
    forall v | v in users + [u]
      ensures |PreferencesOf(prefs + [d], v.id)| == 1
    {
      if v != u {
        FilterSnoc(prefs, d, BelongsTo(v.id));
      }
    }
    forall p | p in prefs + [d]
      ensures exists w :: w in users + [u] && w.id == p.userId
    {
      if p == d {
        assert u in users + [u];
      } else {
        var w :| w in users && w.id == p.userId;
        assert w in users + [u];
      }
    }
  }

  /** Appending a user whose id is above every stored one keeps ids unique. */
  lemma FreshIdKeepsUnique(users: seq<User>, u: User)
    requires UniqueIds(users)
    requires forall v :: v in users ==> v.id < u.id
    ensures UniqueIds(users + [u])
    ensures forall v :: v in users + [u] ==> v.id <= u.id
  {
    var all := users + [u];
    forall i, j | 0 <= i < j < |all|
      ensures all[i].id != all[j].id
    {
      assert all[i] == users[i];
      if j == |users| {
        assert users[i] in users;
      } else {
        assert all[j] == users[j];
      }
    }
  }

  /** The user table together with the preference table. */
  class UserDirectory {
    var users: seq<User>
    var prefs: seq<Preference>
    var nextId: nat

    ghost predicate Valid()
      reads this
    {
      && UniqueIds(users)
      && (forall u :: u in users ==> u.id < nextId)
      && OnePreferenceEach(users, prefs)
    }

    constructor ()
      ensures Valid() && users == [] && prefs == []
    {
      users, prefs, nextId := [], [], 1;
    }

    /** Inserting a user fires the `created` hook, which inserts the user's
        default preference. */
    method Create(name: string, email: string, role: string) returns (u: User)
      requires Valid()
      modifies this
      ensures Valid()
      ensures u == User(old(nextId), name, email, role)
      ensures users == old(users) + [u]
      ensures prefs == old(prefs) + [DefaultPreference(u.id)]
      ensures PreferencesOf(prefs, u.id) == [DefaultPreference(u.id)]
    {
      u := User(nextId, name, email, role);
      CreatedHookGivesOnePreference(users, prefs, u);
      FreshIdKeepsUnique(users, u);
      users := users + [u];
      nextId := nextId + 1;
      // the `created` hook
      prefs := prefs + [DefaultPreference(u.id)];
    }
  }
}
