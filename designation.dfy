/** The designations (job titles) of src/api/designation.api.ts: the payloads of
    create and update, which normalise the code to upper case, the soft
    activation switch, the in-use check and the count of users per
    designation. */
module Designations {
  import opened Wrappers
  import opened Seqs
  import opened Text
  import opened Entries
  import opened Grouping

  /** The row `createDesignation` inserts. */
  datatype NewDesignation = NewDesignation(name: string, code: string, description: Option<string>, isActive: bool)

  /** `{ name, code: code.toUpperCase(), description: description || null, is_active: true }`. */
  function CreateRow(name: string, code: string, description: Option<string>): (r: NewDesignation)
    ensures r.name == name && r.isActive
    ensures |r.code| == |code| && forall i :: 0 <= i < |code| ==> r.code[i] == UpperChar(code[i])
    ensures r.description.None? <==> description.None? || description.value == ""
    ensures r.description.Some? ==> r.description == description
  {
    NewDesignation(name, ToUpper(code),
                   if description.Some? && description.value != "" then description else None,
                   true)
  }

  /** Upper-casing a code that is already upper case changes nothing, so the
      stored code is a fixed point of the normalisation. */
  lemma ToUpperIdempotent(code: string)
    ensures ToUpper(ToUpper(code)) == ToUpper(code)
  {
    var u := ToUpper(code);
    assert forall i :: 0 <= i < |u| ==> UpperChar(u[i]) == u[i];
  }

  lemma CreatedCodeNormalised(name: string, code: string, description: Option<string>)
    ensures ToUpper(CreateRow(name, code, description).code) == CreateRow(name, code, description).code
    ensures forall i :: 0 <= i < |code| ==> !('a' <= CreateRow(name, code, description).code[i] <= 'z')
  {
    ToUpperIdempotent(code);
  }

  /** `Partial<{ name, code, description, is_active }>`: `None` is a field left out. */
  datatype UpdateParams = UpdateParams(
    name: Option<string>, code: Option<string>, description: Option<string>, isActive: Option<bool>)

  /** `{ ...params }` with the code upper-cased when it is given and not empty. */
  function UpdateData(p: UpdateParams): (d: UpdateParams)
    ensures d.name == p.name && d.description == p.description && d.isActive == p.isActive
    ensures p.code.None? ==> d.code.None?
    ensures p.code.Some? ==> d.code.Some? && |d.code.value| == |p.code.value|
    ensures p.code.Some? && p.code.value != "" ==> d.code == Some(ToUpper(p.code.value))
    ensures p.code == Some("") ==> d.code == Some("")
  {
    if p.code.Some? && p.code.value != "" then p.(code := Some(ToUpper(p.code.value))) else p
  }

  /** A stored designation; `updateDesignation` changes its `var` columns. */
  class Designation {
    const id: string
    var name: string
    var code: string
    var description: Option<string>
    var isActive: bool

    /** The row the database holds after inserting `row`. */
    constructor (id: string, row: NewDesignation)
      ensures this.id == id && name == row.name && code == row.code
      ensures description == row.description && isActive == row.isActive
    {
      this.id := id;
      name, code, description, isActive := row.name, row.code, row.description, row.isActive;
    }

    /** `updateDesignation(id, params)`: the fields of `UpdateData(params)` are written. */
    method Update(params: UpdateParams)
      modifies this
      ensures var d := UpdateData(params);
        name == d.name.GetOr(old(name)) && code == d.code.GetOr(old(code))
        && description == (if d.description.Some? then d.description else old(description))
        && isActive == d.isActive.GetOr(old(isActive))
    {
      var d := UpdateData(params);
      name := d.name.GetOr(name);
      code := d.code.GetOr(code);
      if d.description.Some? {
        description := d.description;
      }
      isActive := d.isActive.GetOr(isActive);
    }

    /** `deactivateDesignation`: a soft delete. */
    method Deactivate()
      modifies this
      ensures !isActive
      ensures name == old(name) && code == old(code) && description == old(description)
    {
      Update(UpdateParams(None, None, None, Some(false)));
    }

    /** `activateDesignation`. */
    method Activate()
      modifies this
      ensures isActive
      ensures name == old(name) && code == old(code) && description == old(description)
    {
      Update(UpdateParams(None, None, None, Some(true)));
    }
  }

  // ---------------------------------------------------------------- users per designation

  /** The columns of a user the designation reports read: `designation_id`
      and `designation?.name`. */
  datatype UserRow = UserRow(designationId: Option<string>, designationName: Option<string>)

  /** `(count || 0) > 0`, where `count` is the exact number of users with the designation. */
  function IsDesignationInUse(count: Option<nat>): (inUse: bool)
    ensures inUse <==> count.Some? && count.value > 0
  {
    count.GetOr(0) > 0
  }

  function HoldsDesignation(id: string): UserRow -> bool {
    (u: UserRow) => u.designationId == Some(id)
  }

  /** A designation is in use exactly when some user holds it. */
  lemma InUseIffHeld(users: seq<UserRow>, id: string)
    ensures IsDesignationInUse(Some(CountWhere(users, HoldsDesignation(id))))
      <==> exists i :: 0 <= i < |users| && users[i].designationId == Some(id)
  {
    if exists i :: 0 <= i < |users| && users[i].designationId == Some(id) {
      var i :| 0 <= i < |users| && users[i].designationId == Some(id);
      assert HoldsDesignation(id)(users[i]);
    }
  }

  /** `.not('designation_id', 'is', null)`: the users without one are not grouped. */
  function DesignationKey(u: UserRow): Option<string> {
    u.designationId
  }

  const Unknown := "Unknown"

  /** `item.designation?.name || 'Unknown'`. */
  function DesignationName(u: UserRow): (name: string)
    ensures name != ""
    ensures u.designationName.Some? && u.designationName.value != "" ==> name == u.designationName.value
  {
    if u.designationName.Some? && u.designationName.value != "" then u.designationName.value else Unknown
  }

  function NoWeight(u: UserRow): int {
    0
  }

  /** One entry of the result. */
  datatype DesignationCount = DesignationCount(designationId: string, designationName: string, userCount: nat)

  function CountEntries(gs: seq<Group<string, string>>): (es: seq<DesignationCount>)
    ensures |es| == |gs|
    ensures forall i :: 0 <= i < |gs| ==> es[i] == DesignationCount(gs[i].key, gs[i].name, gs[i].count)
  {
    seq(|gs|, i requires 0 <= i < |gs| => DesignationCount(gs[i].key, gs[i].name, gs[i].count))
  }

  function UserCounts(users: seq<UserRow>): seq<DesignationCount> {
    CountEntries(GroupsOf(users, DesignationKey, NoWeight, DesignationName))
  }

  /** `getUserCountByDesignation` once the users are fetched: the `reduce`
      fills the accumulator object, whose values are returned. */
  method GetUserCountByDesignation(users: Option<seq<UserRow>>) returns (es: seq<DesignationCount>)
    ensures es == UserCounts(users.GetOr([]))
  {
    var gs := GroupEntries(users.GetOr([]), DesignationKey, NoWeight, DesignationName);
    es := CountEntries(gs);
  }

  /** The sum of `userCount` over the entries. */
  function TotalCount(es: seq<DesignationCount>): nat {
    if es == [] then 0 else es[0].userCount + TotalCount(es[1..])
  }

  lemma {:induction false} TotalCountOfEntries(gs: seq<Group<string, string>>)
    ensures TotalCount(CountEntries(gs)) == CountTotal(gs)
  {
    if gs != [] {
      TotalCountOfEntries(gs[1..]);
      assert CountEntries(gs)[1..] == CountEntries(gs[1..]);
    }
  }

  lemma {:induction false} KeyedIsDesignated(users: seq<UserRow>)
    ensures Keyed(users, DesignationKey) == CountWhere(users, (u: UserRow) => u.designationId.Some?)
  {
    if users != [] {
      KeyedIsDesignated(users[..|users| - 1]);
    }
  }

  /** The counts add up to the number of users holding a designation, and no
      designation is listed twice. */
  lemma UserCountsAddUp(users: seq<UserRow>)
    ensures TotalCount(UserCounts(users)) == CountWhere(users, (u: UserRow) => u.designationId.Some?)
    ensures forall i, j :: 0 <= i < j < |UserCounts(users)| ==>
      UserCounts(users)[i].designationId != UserCounts(users)[j].designationId
  {
    var gs := GroupsOf(users, DesignationKey, NoWeight, DesignationName);
    GroupsOfCover(users, DesignationKey, NoWeight, DesignationName);
    TotalCountOfEntries(gs);
    KeyedIsDesignated(users);
  }

  /** Each entry counts the users of its designation and takes its name from
      the first of them, "Unknown" when that user's designation has no name. */
  lemma UserCountEntry(users: seq<UserRow>, i: nat)
    requires i < |UserCounts(users)|
    ensures var e := UserCounts(users)[i];
      e.userCount == CountKey(users, DesignationKey, e.designationId)
      && exists j :: 0 <= j < |users| && users[j].designationId == Some(e.designationId)
           && e.designationName == DesignationName(users[j])
           && forall k :: 0 <= k < j ==> users[k].designationId != Some(e.designationId)
  {
    var gs := GroupsOf(users, DesignationKey, NoWeight, DesignationName);
    assert gs[i] in gs;
    GroupsOfEntry(users, DesignationKey, NoWeight, DesignationName, gs[i]);
  }
}
