/** The `User` record, the in-memory user table and the pure operations
    the component's handlers and views apply to it. */
module Users {
  import opened Optional
  import opened Seqs

  datatype Status = Online | Offline | Away

  /** `'user'` is `Regular`, `'admin'` is `Admin`. */
  datatype Role = Regular | Admin

  /** A `Date`, as milliseconds since the Unix epoch. */
  type Timestamp = int

  /** Optional fields of the record are `Option`s; `isBanned` is optional too,
      and an absent flag reads as false. */
  datatype User = User(
    id: string,
    name: string,
    email: string,
    avatar: Option<string>,
    status: Status,
    lastSeen: Option<string>,
    bio: Option<string>,
    joinDate: Timestamp,
    isBanned: Option<bool>,
    role: Role)

  /** The truth value of `u.isBanned`: `undefined` and `false` are both false. */
  predicate IsBanned(u: User) {
    u.isBanned == Some(true)
  }

  predicate IsOnline(u: User) {
    u.status == Online
  }

  const AdminId: string := "admin"

  /** `new Date('2024-01-01')`, which is midnight UTC. */
  const SeedJoinDate: Timestamp := 1704067200000

  /** The one record the table starts with. */
  const SeedAdmin: User := User(AdminId, "Himo", "himo@messenger.com", None, Online, None,
                                Some("Администратор системы"), SeedJoinDate, None, Admin)

  const InitialUsers: seq<User> := [SeedAdmin]

  /** `users.find(u => u.id === id)`: the first record carrying `id`. */
  function Find(us: seq<User>, id: string): (r: Option<User>)
    ensures r.None? <==> forall k :: 0 <= k < |us| ==> us[k].id != id
    ensures r.Some? ==> r.value.id == id
    ensures r.Some? ==> exists k :: 0 <= k < |us| && us[k] == r.value && forall j :: 0 <= j < k ==> us[j].id != id
  {
    if us == [] then None
    else if us[0].id == id then Some(us[0])
    else
      var r := Find(us[1..], id);
      assert forall k :: 0 <= k < |us[1..]| ==> us[1..][k] == us[k + 1];
      assert r.Some? ==> exists k :: 1 <= k < |us| && us[k] == r.value && forall j :: 0 <= j < k ==> us[j].id != id;
      r
  }

  /** `{ ...u, isBanned: !u.isBanned }` */
  function ToggleBan(u: User): (r: User)
    ensures IsBanned(r) == !IsBanned(u) && r.isBanned.Some?
    ensures r.(isBanned := u.isBanned) == u
  {
    u.(isBanned := Some(!IsBanned(u)))
  }

  /** The table after `handleBanUser(id)`: the flag of every entry with `id`
      is flipped, nothing else changes. */
  function BanToggled(us: seq<User>, id: string): (r: seq<User>)
    ensures |r| == |us|
    ensures forall k :: 0 <= k < |us| ==> IsBanned(r[k]) == (IsBanned(us[k]) != (us[k].id == id))
    ensures forall k :: 0 <= k < |us| ==> r[k] == us[k].(isBanned := r[k].isBanned)
    ensures forall k :: 0 <= k < |us| && us[k].id != id ==> r[k] == us[k]
    ensures forall k :: 0 <= k < |us| && us[k].id == id ==> r[k].isBanned.Some?
  {
    Map(us, (u: User) => if u.id == id then ToggleBan(u) else u)
  }

  function HasId(id: string): User -> bool {
    (u: User) => u.id == id
  }

  function LacksId(id: string): User -> bool {
    (u: User) => u.id != id
  }

  /** How many entries of the table carry `id`. */
  function Occurrences(us: seq<User>, id: string): nat {
    Count(us, HasId(id))
  }

  /** The table after `handleDeleteUser(id)`: no entry carries `id`, every
      other entry is kept in order, and exactly the matching ones are gone. */
  function WithoutId(us: seq<User>, id: string): (r: seq<User>)
    ensures forall k :: 0 <= k < |r| ==> r[k].id != id
    ensures forall k :: 0 <= k < |us| && us[k].id != id ==> us[k] in r
    ensures IsSubsequence(r, us)
    ensures |r| == |us| - Occurrences(us, id)
  {
    CountComplement(us, LacksId(id), HasId(id));
    Filter(us, LacksId(id))
  }

  /** `users.map(u => u.id === id ? v : u)` */
  function ReplaceById(us: seq<User>, id: string, v: User): (r: seq<User>)
    ensures |r| == |us|
    ensures forall k :: 0 <= k < |us| && us[k].id == id ==> r[k] == v
    ensures forall k :: 0 <= k < |us| && us[k].id != id ==> r[k] == us[k]
    ensures v.id == id ==> forall k :: 0 <= k < |us| ==> r[k].id == us[k].id
  {
    Map(us, (u: User) => if u.id == id then v else u)
  }

  /** Whether `u` is someone other than the session user; with no session
      user, `currentUser?.id` is `undefined` and every record qualifies. */
  predicate NotCurrent(u: User, current: Option<User>) {
    current.None? || u.id != current.value.id
  }

  /** The admin panel's list: everyone except the session user. */
  function AdminList(us: seq<User>, current: Option<User>): (r: seq<User>)
    ensures IsSubsequence(r, us)
    ensures forall k :: 0 <= k < |r| ==> NotCurrent(r[k], current)
    ensures forall k :: 0 <= k < |us| && NotCurrent(us[k], current) ==> us[k] in r
    ensures |r| == Count(us, (u: User) => NotCurrent(u, current))
  {
    Filter(us, (u: User) => NotCurrent(u, current))
  }

  /** The contacts roster: everyone except the session user who is not banned. */
  function OnlineRoster(us: seq<User>, current: Option<User>): (r: seq<User>)
    ensures IsSubsequence(r, us)
    ensures forall k :: 0 <= k < |r| ==> NotCurrent(r[k], current) && !IsBanned(r[k])
    ensures forall k :: 0 <= k < |us| && NotCurrent(us[k], current) && !IsBanned(us[k]) ==> us[k] in r
    ensures |r| == Count(us, (u: User) => NotCurrent(u, current) && !IsBanned(u))
  {
    Filter(us, (u: User) => NotCurrent(u, current) && !IsBanned(u))
  }

  lemma RosterWithinAdminList(us: seq<User>, current: Option<User>)
    ensures IsSubsequence(OnlineRoster(us, current), AdminList(us, current))
    ensures forall k :: 0 <= k < |OnlineRoster(us, current)| ==>
      !IsBanned(OnlineRoster(us, current)[k]) && OnlineRoster(us, current)[k] in AdminList(us, current)
  {
    var p := (u: User) => NotCurrent(u, current) && !IsBanned(u);
    var q := (u: User) => NotCurrent(u, current);
    FilterMonotone(us, p, q);
    SubsequenceMembers(OnlineRoster(us, current), AdminList(us, current));
  }

  lemma {:induction false} SubsequenceMembers(a: seq<User>, b: seq<User>)
    requires IsSubsequence(a, b)
    ensures forall k :: 0 <= k < |a| ==> a[k] in b
    decreases |b|
  {
    if a != [] {
      if a[0] == b[0] && IsSubsequence(a[1..], b[1..]) {
        SubsequenceMembers(a[1..], b[1..]);
        assert forall k :: 1 <= k < |a| ==> a[k] == a[1..][k - 1];
      } else {
        SubsequenceMembers(a, b[1..]);
      }
    }
  }

  /** Neither view lists the session user. */
  lemma ViewsExcludeCurrent(us: seq<User>, c: User)
    ensures forall k :: 0 <= k < |AdminList(us, Some(c))| ==> AdminList(us, Some(c))[k].id != c.id
    ensures forall k :: 0 <= k < |OnlineRoster(us, Some(c))| ==> OnlineRoster(us, Some(c))[k].id != c.id
  {
  }

  /** Banning twice restores every flag's truth value, and the record
      itself wherever the flag was stored explicitly. */
  lemma BanTwice(us: seq<User>, id: string)
    ensures forall k :: 0 <= k < |us| ==> IsBanned(BanToggled(BanToggled(us, id), id)[k]) == IsBanned(us[k])
    ensures (forall k :: 0 <= k < |us| && us[k].id == id ==> us[k].isBanned.Some?) ==>
      BanToggled(BanToggled(us, id), id) == us
  {
    var once := BanToggled(us, id);
    var twice := BanToggled(once, id);
    assert forall k :: 0 <= k < |us| ==> once[k].id == us[k].id;
    if forall k :: 0 <= k < |us| && us[k].id == id ==> us[k].isBanned.Some? {
      forall k | 0 <= k < |us| ensures twice[k] == us[k] {
        if us[k].id == id {
          assert once[k].id == id;
          assert IsBanned(once[k]) == !IsBanned(us[k]);
          assert IsBanned(twice[k]) == IsBanned(us[k]);
          assert twice[k].isBanned.Some? && us[k].isBanned.Some?;
          assert twice[k].isBanned.value == us[k].isBanned.value;
          assert twice[k] == us[k].(isBanned := once[k].isBanned).(isBanned := twice[k].isBanned);
        }
      }
    }
  }

  /** Banning changes neither the table's size nor how many users are online. */
  lemma BanKeepsTotalAndOnline(us: seq<User>, id: string)
    ensures |BanToggled(us, id)| == |us|
    ensures |Filter(BanToggled(us, id), IsOnline)| == |Filter(us, IsOnline)|
  {
    CountPointwise(us, BanToggled(us, id), IsOnline, IsOnline);
  }

  /** Replacing a record by one carrying the same id is idempotent. */
  lemma ReplaceByIdIdempotent(us: seq<User>, id: string, v: User)
    requires v.id == id
    ensures ReplaceById(ReplaceById(us, id, v), id, v) == ReplaceById(us, id, v)
  {
  }
}
