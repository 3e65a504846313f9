/** The `users` table of the database, as the eco-reward code reaches it: a lookup by
    primary key (`db.query.users.findFirst({ where: eq(users.id, id) })`) and a write of the
    four garden counters (`db.update(users).set({...}).where(eq(users.id, id))`). */
module UsersTable {
  import opened Common
  import opened Schema

  /** The four garden counters, with a missing value already read as 0. */
  datatype Progress = Progress(ecoBadges: int, seeds: int, plants: int, fruits: int)

  /** `user.ecoBadges ?? 0` and likewise for the other three counters. */
  function ProgressOf(u: User): (r: Progress)
    ensures r.ecoBadges == (if u.ecoBadges.Some? then u.ecoBadges.value else 0)
    ensures r.seeds == (if u.seeds.Some? then u.seeds.value else 0)
    ensures r.plants == (if u.plants.Some? then u.plants.value else 0)
    ensures r.fruits == (if u.fruits.Some? then u.fruits.value else 0)
  {
    Progress(u.ecoBadges.GetOr(0), u.seeds.GetOr(0), u.plants.GetOr(0), u.fruits.GetOr(0))
  }

  /** The user record after `.set({ ecoBadges, seeds, plants, fruits })`: reading the
      counters back gives exactly what was written, and no other column changes. */
  function WithProgress(u: User, p: Progress): (r: User)
    ensures ProgressOf(r) == p
    ensures r.ecoBadges.Some? && r.seeds.Some? && r.plants.Some? && r.fruits.Some?
    ensures r.(ecoBadges := u.ecoBadges, seeds := u.seeds, plants := u.plants, fruits := u.fruits) == u
  {
    u.(ecoBadges := Some(p.ecoBadges), seeds := Some(p.seeds), plants := Some(p.plants), fruits := Some(p.fruits))
  }

  /** The rows of the table, keyed by the primary key `id`. */
  class UserTable {
    var rows: map<int, User>

    /** Every row sits under its own `id` column, so selecting by key is `eq(users.id, id)`. */
    ghost predicate Valid()
      reads this
    {
      forall k :: k in rows ==> rows[k].id == k
    }

    constructor (initial: map<int, User>)
      ensures rows == initial
    {
      rows := initial;
    }

    /** `findFirst` by primary key: the row with that id, if any. */
    function FindFirst(id: int): (r: Option<User>)
      reads this
      ensures r.Some? <==> id in rows
      ensures r.Some? ==> r.value == rows[id]
      ensures Valid() && r.Some? ==> r.value.id == id
    {
      if id in rows then Some(rows[id]) else None
    }

    /** `update ... set` the four counters `where id = id`: the matching row, if any, gets
        them, every other row and column stays. */
    method SetProgress(id: int, p: Progress)
      modifies this
      ensures id in old(rows) ==> rows == old(rows)[id := WithProgress(old(rows)[id], p)]
      ensures id !in old(rows) ==> rows == old(rows)
      ensures old(Valid()) ==> Valid()
    {
      if id in rows {
        rows := rows[id := WithProgress(rows[id], p)];
      }
    }
  }
}
