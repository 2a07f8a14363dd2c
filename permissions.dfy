/** The command -> role-id list update of `addrole` and `removerole`, on the
    dictionary read from the permission file (the file handling itself is not
    modelled). */
module Permissions {
  import opened Lists

  type Permissions = map<string, seq<string>>

  /** `addrole`: append the role to an existing command's list unless it is
      already there; give a new command the one-role list. The flag tells
      whether anything changed (and so whether the file is rewritten). */
  function AddRole(p: Permissions, command: string, role: string): (r: (Permissions, bool))
    ensures r.1 <==> !(command in p && role in p[command])
    ensures command in r.0 && role in r.0[command]
    ensures r.0 == if !r.1 then p else p[command := (if command in p then p[command] else []) + [role]]
  {
    if command in p then
      if role !in p[command] then (p[command := p[command] + [role]], true)
      else (p, false)
    else
      assert [] + [role] == [role];
      (p[command := [role]], true)
  }

  /** `removerole`: remove the first occurrence of the role from the
      command's list when both exist; otherwise nothing changes. */
  function RemoveRole(p: Permissions, command: string, role: string): (r: (Permissions, bool))
    ensures r.1 <==> command in p && role in p[command]
    ensures r.0.Keys == p.Keys
    ensures forall c | c in p && c != command :: r.0[c] == p[c]
    ensures r.1 ==> r.0[command] == RemoveFirst(p[command], role)
    ensures r.1 ==> |r.0[command]| == |p[command]| - 1
    ensures !r.1 ==> r.0 == p
  {
    if command in p && role in p[command] then (p[command := RemoveFirst(p[command], role)], true)
    else (p, false)
  }

  /** `addrole` never lists a role twice for a command. */
  lemma AddRoleKeepsDistinct(p: Permissions, command: string, role: string)
    requires command in p ==> Distinct(p[command])
    ensures Distinct(AddRole(p, command, role).0[command])
  {
  }

  /** On a list without repeats, `removerole` revokes the role completely
      and keeps the command's other roles in their order. */
  lemma RemoveRoleRevokes(p: Permissions, command: string, role: string)
    requires command in p && Distinct(p[command])
    ensures role !in RemoveRole(p, command, role).0[command]
    ensures RemoveRole(p, command, role).0[command] == Keep(p[command], [role])
  {
    RemoveFirstOfDistinct(p[command], role);
  }

  /** Granting a new role and revoking it again restores the table, except
      that a command granted for the first time stays with an empty list. */
  lemma RemoveAfterAdd(p: Permissions, command: string, role: string)
    requires !(command in p && role in p[command])
    ensures RemoveRole(AddRole(p, command, role).0, command, role).0
         == if command in p then p else p[command := []]
  {
    var l := if command in p then p[command] else [];
    RemoveFirstAppended(l, role);
    if command in p {
      assert p[command := l] == p;
    }
  }
}
