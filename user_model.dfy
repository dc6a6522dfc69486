/**
 * The user account record (server/src/models/user.js) as the handlers read
 * and write it.
 */
module UserModel {
  import opened Wrappers
  import opened ObjectIds
  import Seqs
  import JsText

  /** One of `Roles` when the schema accepts it. */
  type Role = string

  /** The `role` enumeration. */
  const Roles: seq<Role> := ["ADMIN", "VOLUNTEER", "NGO", "CITIZEN"]

  /**
   * A stored account. The schema is strict, so keys it does not declare
   * (such as `firstName` and `lastName`) are never stored.
   */
  datatype User = User(
    id: ObjectId,
    name: Option<string>,
    email: string,
    passwordHash: string,
    role: Role,
    isAccountVerified: bool)

  /** The validators `User.create` runs: `name` is required (non-empty) and `role` is in the enum. */
  predicate SchemaAccepts(u: User) {
    u.name.Some? && u.name.value != "" && u.role in Roles
  }

  function HasId(id: ObjectId): User -> bool {
    (u: User) => u.id == id
  }

  /** Matches of `findOne({ email: e })`: the schema lower-cases both stored and queried emails. */
  function HasEmail(e: string): User -> bool {
    (u: User) => u.email == JsText.Lower(e)
  }

  /** Ids and emails are unique and emails are stored lower-cased. */
  ghost predicate ValidRows(rows: seq<User>) {
    && (forall i, j :: 0 <= i < j < |rows| ==> rows[i].id != rows[j].id)
    && (forall i, j :: 0 <= i < j < |rows| ==> rows[i].email != rows[j].email)
    && (forall i :: 0 <= i < |rows| ==> JsText.Lower(rows[i].email) == rows[i].email)
  }

  /** Changing a user's role keeps the invariant. */
  lemma SetRoleKeepsValid(rows: seq<User>, k: nat, role: Role)
    requires ValidRows(rows) && k < |rows|
    ensures ValidRows(rows[k := rows[k].(role := role)])
  {
    var after := rows[k := rows[k].(role := role)];
    forall i | 0 <= i < |after|
      ensures after[i].id == rows[i].id && after[i].email == rows[i].email
    {
    }
  }

  /** Removing a user keeps the invariant, and with unique ids its id is gone. */
  lemma RemoveKeepsValid(rows: seq<User>, k: nat)
    requires ValidRows(rows) && k < |rows|
    ensures ValidRows(Seqs.RemoveAt(rows, k))
    ensures forall i :: 0 <= i < |rows| - 1 ==> Seqs.RemoveAt(rows, k)[i].id != rows[k].id
  {
    var r := Seqs.RemoveAt(rows, k);
    forall i, j | 0 <= i < j < |r|
      ensures r[i].id != r[j].id && r[i].email != r[j].email
    {
      var i', j' := if i < k then i else i + 1, if j < k then j else j + 1;
      assert r[i] == rows[i'] && r[j] == rows[j'] && i' < j';
    }
    forall i | 0 <= i < |r|
      ensures r[i].id != rows[k].id
    {
      var i' := if i < k then i else i + 1;
      assert r[i] == rows[i'] && i' != k;
      if i' < k {} else {}
    }
  }

  /** The `users` collection, in natural order. */
  class UserCollection {
    var rows: seq<User>

    ghost predicate Valid()
      reads this
    {
      ValidRows(rows)
    }

    constructor ()
      ensures rows == [] && Valid()
    {
      rows := [];
    }

    function IndexOf(id: ObjectId): (r: Option<nat>)
      reads this
      ensures r.Some? ==> r.value < |rows| && rows[r.value].id == id
      ensures r.None? <==> forall i :: 0 <= i < |rows| ==> rows[i].id != id
    {
      Seqs.FindFirst(rows, HasId(id))
    }

    function IndexOfEmail(e: string): (r: Option<nat>)
      reads this
      ensures r.Some? ==> r.value < |rows| && rows[r.value].email == JsText.Lower(e)
      ensures r.None? <==> forall i :: 0 <= i < |rows| ==> rows[i].email != JsText.Lower(e)
    {
      Seqs.FindFirst(rows, HasEmail(e))
    }

    /**
     * `findByIdAndDelete(id)`: the user with this id is removed and returned;
     * with no such user nothing changes. Afterwards no user has this id.
     */
    method DeleteById(id: ObjectId) returns (deleted: Option<User>)
      requires Valid()
      modifies this
      ensures Valid()
      ensures old(IndexOf(id)).None? ==> deleted == None && rows == old(rows)
      ensures old(IndexOf(id)).Some? ==>
        deleted == Some(old(rows)[old(IndexOf(id)).value])
        && rows == Seqs.RemoveAt(old(rows), old(IndexOf(id)).value)
      ensures IndexOf(id).None?
    {
      var found := IndexOf(id);
      if found.None? {
        return None;
      }
      var k := found.value;
      deleted := Some(rows[k]);
      RemoveKeepsValid(rows, k);
      rows := Seqs.RemoveAt(rows, k);
    }
  }
}
