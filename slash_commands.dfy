/** interactions/slash_commands.py: the permission decision every command
    handler asks for, over the contents of `permissions.json`. */
module Permissions {
  import opened Wrappers

  /** A command's entry; a key that is absent is `None`, and so is a
      `"roles": null`, which is falsy just like an absent key. */
  datatype CommandPerm = CommandPerm(default: Option<bool>, roles: Option<seq<int>>)

  /** The file: `admin_users` and `commands`, each possibly absent. */
  datatype Config = Config(adminUsers: Option<seq<int>>, commands: Option<map<string, CommandPerm>>)

  /** The caller: a member carries its role ids, a DM user has no `roles`
      attribute. */
  datatype User = User(id: int, roles: Option<seq<int>>)

  /** `_load_permissions`: any failure gives `{"commands": {}}`. */
  function LoadPermissions(stored: Stored<Config>): (c: Config)
    ensures stored.Loaded? ==> c == stored.value
    ensures !stored.Loaded? ==> c.adminUsers.None? && c.commands == Some(map[])
  {
    LoadOr(stored, Config(None, Some(map[])))
  }

  /** `permissions.get("commands", {}).get(name, {})`. */
  function EntryFor(config: Config, name: string): CommandPerm {
    var commands := config.commands.GetOr(map[]);
    if name in commands then commands[name] else CommandPerm(None, None)
  }

  predicate IsAdmin(config: Config, user: User) {
    user.id in config.adminUsers.GetOr([])
  }

  /** The entry restricts by role: `"roles"` is present and non-empty. */
  predicate Restricted(perm: CommandPerm) {
    perm.roles.Some? && perm.roles.value != []
  }

  /** The user holds at least one of the listed roles. */
  predicate HoldsListedRole(allowed: seq<int>, user: User)
    requires user.roles.Some?
  {
    exists k :: 0 <= k < |allowed| && allowed[k] in user.roles.value
  }

  /** The decision, as a reference: admins pass; a role-restricted command
      needs one listed role, except that a user without roles gets the
      default; otherwise the default, which is true when absent. */
  predicate Allowed(config: Config, user: User, name: string) {
    var perm := EntryFor(config, name);
    var defaultAllow := perm.default.GetOr(true);
    if IsAdmin(config, user) then true
    else if Restricted(perm) then
      if user.roles.None? then defaultAllow else HoldsListedRole(perm.roles.value, user)
    else defaultAllow
  }

  /** `check_permission`: the admin list, then the entry, with the search
      through the allowed roles and its early returns. */
  method CheckPermission(config: Config, user: User, name: string) returns (allowed: bool)
    ensures allowed == Allowed(config, user, name)
  {
    var admins := config.adminUsers.GetOr([]);
    if user.id in admins {
      return true;
    }
    var perm := EntryFor(config, name);
    var defaultAllow := perm.default.GetOr(true);
    if perm.roles.Some? && perm.roles.value != [] {
      if user.roles.None? {
        return defaultAllow;
      }
      var userRoles := user.roles.value;
      var allowedRoles := perm.roles.value;
      var k := 0;
      while k < |allowedRoles|
        invariant 0 <= k <= |allowedRoles|
        invariant forall m :: 0 <= m < k ==> allowedRoles[m] !in userRoles
      {
        if allowedRoles[k] in userRoles {
          return true;
        }
        k := k + 1;
      }
      return false;
    }
    return defaultAllow;
  }

  /** The rules of the decision, each direction stated: admins always pass;
      a command with no entry, or with an empty or absent role list, follows
      `default` (true when absent); with a non-empty role list a member is
      admitted exactly when holding a listed role, whatever `default` says;
      a user without roles then gets `default`. */
  lemma AllowedRules(config: Config, user: User, name: string)
    ensures IsAdmin(config, user) ==> Allowed(config, user, name)
    ensures !IsAdmin(config, user) && !Restricted(EntryFor(config, name)) ==>
      (Allowed(config, user, name) <==> EntryFor(config, name).default != Some(false))
    ensures !IsAdmin(config, user) && Restricted(EntryFor(config, name)) && user.roles.Some? ==>
      (Allowed(config, user, name) <==>
        exists k :: 0 <= k < |EntryFor(config, name).roles.value|
          && EntryFor(config, name).roles.value[k] in user.roles.value)
    ensures !IsAdmin(config, user) && Restricted(EntryFor(config, name)) && user.roles.None? ==>
      (Allowed(config, user, name) <==> EntryFor(config, name).default != Some(false))
  {
  }

  /** With the fallback configuration every command is allowed to everyone. */
  lemma FallbackAllowsAll(stored: Stored<Config>, user: User, name: string)
    requires !stored.Loaded?
    ensures Allowed(LoadPermissions(stored), user, name)
  {
  }
}
