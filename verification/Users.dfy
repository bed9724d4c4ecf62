/** The user table and its guard against losing the last enabled administrator. */
module Users {

  datatype Level = NoAccess | Viewer | Operator | Admin
  datatype User = User(level: Level, enabled: bool)
  type Accounts = map<string, User>

  predicate ActiveAdmin(u: User) {
    u.level == Admin && u.enabled
  }

  ghost predicate HasAdmin(users: Accounts) {
    exists name | name in users :: ActiveAdmin(users[name])
  }

  function OtherAdmins(users: Accounts, name: string): set<string> {
    set other | other in users && other != name && ActiveAdmin(users[other])
  }

  /** `wouldOrphanAdmins`: the account is an active administrator and counts no other. */
  predicate WouldOrphan(users: Accounts, name: string) {
    name in users && ActiveAdmin(users[name]) && |OtherAdmins(users, name)| == 0
  }

  datatype Operation =
    | Add(name: string, level: Level)
    | Remove(name: string)
    | SetLevel(name: string, level: Level)
    | SetEnabled(name: string, enabled: bool)
  {
    /** The operations that the guard looks at: they can only take an administrator away. */
    predicate Guarded() {
      match this
      case Add(_, _) => false
      case Remove(_) => true
      case SetLevel(_, level) => level != Admin
      case SetEnabled(_, enabled) => !enabled
    }
  }

  /** The SQL statement alone, without the guard. */
  function Execute(users: Accounts, op: Operation): Accounts {
    match op
    case Add(name, level) =>
      if name == "" || name in users then users else users[name := User(level, true)]
    case Remove(name) => users - {name}
    case SetLevel(name, level) =>
      if name in users then users[name := users[name].(level := level)] else users
    case SetEnabled(name, enabled) =>
      if name in users then users[name := users[name].(enabled := enabled)] else users
  }

  function Perform(users: Accounts, op: Operation): Accounts {
    if op.Guarded() && WouldOrphan(users, op.name) then users else Execute(users, op)
  }

  function PerformAll(users: Accounts, ops: seq<Operation>): Accounts {
    if ops == [] then users else Perform(PerformAll(users, ops[..|ops| - 1]), ops[|ops| - 1])
  }

  /** The guard refuses exactly the operations that would leave no enabled administrator where
      there is one. */
  lemma GuardIsExact(users: Accounts, op: Operation)
    requires op.Guarded() && op.name in users
    ensures WouldOrphan(users, op.name) <==> (HasAdmin(users) && !HasAdmin(Execute(users, op)))
  {
    var after := Execute(users, op);
    forall other | other in OtherAdmins(users, op.name) ensures HasAdmin(after) {
      assert other in after && ActiveAdmin(after[other]);
    }
    if |OtherAdmins(users, op.name)| != 0 {
      var other :| other in OtherAdmins(users, op.name);
    } else {
      assert forall name | name in users && name != op.name :: name in OtherAdmins(users, op.name) || !ActiveAdmin(users[name]);
      assert forall name | name in after && name != op.name :: after[name] == users[name];
      assert !HasAdmin(after);
    }
  }

  /** Without the guard the other operations cannot take an administrator away. */
  lemma UnguardedKeeps(users: Accounts, op: Operation)
    requires HasAdmin(users) && !op.Guarded()
    ensures HasAdmin(Execute(users, op))
  {
    var admin :| admin in users && ActiveAdmin(users[admin]);
    assert ActiveAdmin(Execute(users, op)[admin]);
  }

  /** Once an enabled administrator exists, one always does. */
  lemma {:induction false} AdminRemains(users: Accounts, ops: seq<Operation>)
    requires HasAdmin(users)
    ensures HasAdmin(PerformAll(users, ops))
  {
    if ops != [] {
      var before, op := PerformAll(users, ops[..|ops| - 1]), ops[|ops| - 1];
      AdminRemains(users, ops[..|ops| - 1]);
      if !op.Guarded() {
        UnguardedKeeps(before, op);
      } else if op.name in before {
        GuardIsExact(before, op);
      } else {
        assert Execute(before, op) == before;
      }
    }
  }

  /** Nothing but its own operation touches an account: over any operations that do not remove it,
      it keeps its level unless they set its level, and its flag unless they set its flag. */
  lemma {:induction false} OnlyItsSetterChanges(users: Accounts, ops: seq<Operation>, name: string)
    requires name in users && Remove(name) !in ops
    ensures
      var after := PerformAll(users, ops);
      && name in after
      && ((forall level :: SetLevel(name, level) !in ops) ==> after[name].level == users[name].level)
      && ((forall enabled :: SetEnabled(name, enabled) !in ops) ==> after[name].enabled == users[name].enabled)
  {
    if ops != [] {
      var before, op := ops[..|ops| - 1], ops[|ops| - 1];
      assert forall o | o in before :: o in ops;
      OnlyItsSetterChanges(users, before, name);
      assert op in ops && op != Remove(name);
    }
  }

  /** The accounts other than `name` are the same. */
  ghost predicate OthersSame(before: Accounts, after: Accounts, name: string) {
    before - {name} == after - {name}
  }

  class UserTable {
    var users: Accounts

    constructor ()
      ensures users == map[]
    {
      users := map[];
    }

    method AddUser(name: string, level: Level) returns (ok: bool)
      modifies this
      ensures users == Perform(old(users), Add(name, level))
      ensures ok <==> users != old(users)
      ensures ok ==> name in users && users[name].level == level && users[name].enabled
      ensures OthersSame(old(users), users, name)
    {
      ok := name != "" && name !in users;
      if ok {
        users := users[name := User(level, true)];
      }
    }

    method RemoveUser(name: string) returns (ok: bool)
      modifies this
      ensures users == Perform(old(users), Remove(name))
      ensures ok <==> name in old(users) && name !in users
      ensures OthersSame(old(users), users, name)
    {
      if WouldOrphan(users, name) {
        return false;
      }
      ok := name in users;
      users := users - {name};
    }

    method SetUserLevel(name: string, level: Level) returns (ok: bool)
      modifies this
      ensures users == Perform(old(users), SetLevel(name, level))
      ensures ok <==> name in users && users[name].level == level && !(level != Admin && WouldOrphan(old(users), name))
      ensures ok ==> users[name].enabled == old(users)[name].enabled
      ensures OthersSame(old(users), users, name)
    {
      if level != Admin && WouldOrphan(users, name) {
        return false;
      }
      ok := name in users;
      if ok {
        users := users[name := users[name].(level := level)];
      }
    }

    method SetUserEnabled(name: string, enabled: bool) returns (ok: bool)
      modifies this
      ensures users == Perform(old(users), SetEnabled(name, enabled))
      ensures ok <==> name in users && users[name].enabled == enabled
      ensures ok ==> users[name].level == old(users)[name].level
      ensures OthersSame(old(users), users, name)
    {
      if !enabled && WouldOrphan(users, name) {
        return false;
      }
      ok := name in users;
      if ok {
        users := users[name := users[name].(enabled := enabled)];
      }
    }
  }
}
