/** The staff handlers (backend/controllers/staffController.js): create and
    update under a unique-email rule, delete, and the password change. bcrypt
    is outside the model: a computed hash arrives as a parameter, and the
    comparison of a password with a stored hash is a function parameter. */
module StaffController {
  import opened Common
  import opened Store

  /** What the create answers: the new member without the password hash. */
  datatype StaffProfile = StaffProfile(staffId: StaffId, name: string, email: string, role: Role)

  /** The body of an update; each field may be omitted. */
  datatype StaffPatch = StaffPatch(name: Option<string>, email: Option<string>, role: Option<Role>)

  /** `role || 'cashier'`. */
  function RoleOrDefault(role: Option<Role>): (r: Role)
    ensures role.None? ==> r == Cashier
    ensures role.Some? ==> r == role.value
  {
    role.GetOr(Cashier)
  }

  /** Some member other than `except` has email `email`; with `except` None, any member counts. */
  predicate StaffEmailTaken(staff: map<StaffId, StaffMember>, email: string, except: Option<StaffId>) {
    exists s | s in staff && Some(s) != except :: staff[s].email == email
  }

  /** `COALESCE(?, column)` on name, email and role; the password hash is never touched. */
  function Amended(m: StaffMember, patch: StaffPatch): StaffMember {
    StaffMember(patch.name.GetOr(m.name), patch.email.GetOr(m.email), m.passwordHash, patch.role.GetOr(m.role))
  }

  /** An update keeps the password, and an empty one keeps everything. */
  lemma AmendKeepsPassword(m: StaffMember, patch: StaffPatch)
    ensures Amended(m, patch).passwordHash == m.passwordHash
    ensures patch == StaffPatch(None, None, None) ==> Amended(m, patch) == m
  {
  }

  /** POST /api/staff. `passwordHash` is the bcrypt hash the handler computes,
      `staffId` the uuid it generates. The route validator guarantees a name of
      at least two characters and a well-formed email. */
  method CreateStaff(db: Db, name: string, email: string, passwordHash: string, role: Option<Role>, staffId: StaffId)
    returns (r: Response<StaffProfile>)
    requires db.Valid()
    requires |name| >= 2 && email != ""
    requires staffId !in db.staff
    modifies db
    ensures db.Valid()
    ensures r.Err? <==> StaffEmailTaken(old(db.staff), email, None)
    ensures r.Err? ==> r == Err(BadRequest, EmailInUse) && unchanged(db)
    ensures r.Ok? ==>
      && r.value == StaffProfile(staffId, name, email, RoleOrDefault(role))
      && db.staff == old(db.staff)[staffId := StaffMember(name, email, passwordHash, RoleOrDefault(role))]
      && db.products == old(db.products) && db.categories == old(db.categories) && db.users == old(db.users)
      && db.sales == old(db.sales) && db.saleItems == old(db.saleItems)
  {
    if exists s | s in db.staff :: db.staff[s].email == email {
      return Err(BadRequest, EmailInUse);
    }
    var finalRole := role.GetOr(Cashier);
    db.staff := db.staff[staffId := StaffMember(name, email, passwordHash, finalRole)];
    r := Ok(StaffProfile(staffId, name, email, finalRole));
  }

  /** PUT /api/staff/:id. Keeping one's own email is not a clash. */
  method UpdateStaff(db: Db, id: StaffId, patch: StaffPatch) returns (r: Response<()>)
    requires db.Valid()
    requires patch.name.Some? ==> |patch.name.value| >= 2
    requires patch.email.Some? ==> patch.email.value != ""
    modifies db
    ensures db.Valid()
    ensures r.Err? ==> unchanged(db)
    ensures id !in old(db.staff) ==> r == Err(NotFound, StaffNotFound)
    ensures id in old(db.staff) && patch.email.Some? && StaffEmailTaken(old(db.staff), patch.email.value, Some(id)) ==>
      r == Err(BadRequest, EmailInUse)
    ensures r.Ok? <==>
      id in old(db.staff) && !(patch.email.Some? && StaffEmailTaken(old(db.staff), patch.email.value, Some(id)))
    ensures id in old(db.staff) && patch.email == Some(old(db.staff)[id].email) ==> r.Ok?
    ensures r.Ok? ==>
      && db.staff == old(db.staff)[id := Amended(old(db.staff)[id], patch)]
      && db.products == old(db.products) && db.categories == old(db.categories) && db.users == old(db.users)
      && db.sales == old(db.sales) && db.saleItems == old(db.saleItems)
  {
    if id !in db.staff {
      return Err(NotFound, StaffNotFound);
    }
    if patch.email.Some? && exists s | s in db.staff && s != id :: db.staff[s].email == patch.email.value {
      return Err(BadRequest, EmailInUse);
    }
    db.staff := db.staff[id := Amended(db.staff[id], patch)];
    r := Ok(());
  }

  /** DELETE /api/staff/:id. */
  method DeleteStaff(db: Db, id: StaffId) returns (r: Response<()>)
    requires db.Valid()
    modifies db
    ensures db.Valid()
    ensures r.Err? <==> id !in old(db.staff)
    ensures r.Err? ==> r == Err(NotFound, StaffNotFound) && unchanged(db)
    ensures r.Ok? ==>
      && db.staff == old(db.staff) - {id}
      && db.products == old(db.products) && db.categories == old(db.categories) && db.users == old(db.users)
      && db.sales == old(db.sales) && db.saleItems == old(db.saleItems)
  {
    if id !in db.staff {
      return Err(NotFound, StaffNotFound);
    }
    db.staff := db.staff - {id};
    r := Ok(());
  }

  /** PUT /api/staff/:id/password. `matches(password, hash)` stands for
      `bcrypt.compare`; `newHash` is the hash of the new password. The route
      validator guarantees a non-empty current password. */
  method ChangePassword(db: Db, id: StaffId, currentPassword: string, matches: (string, string) -> bool, newHash: string)
    returns (r: Response<()>)
    requires db.Valid()
    requires currentPassword != ""
    modifies db
    ensures db.Valid()
    ensures r.Err? ==> unchanged(db)
    ensures id !in old(db.staff) ==> r == Err(NotFound, StaffNotFound)
    ensures id in old(db.staff) && !matches(currentPassword, old(db.staff)[id].passwordHash) ==>
      r == Err(BadRequest, IncorrectPassword)
    ensures r.Ok? <==> id in old(db.staff) && matches(currentPassword, old(db.staff)[id].passwordHash)
    ensures r.Ok? ==>
      && db.staff == old(db.staff)[id := old(db.staff)[id].(passwordHash := newHash)]
      && db.products == old(db.products) && db.categories == old(db.categories) && db.users == old(db.users)
      && db.sales == old(db.sales) && db.saleItems == old(db.saleItems)
  {
    if id !in db.staff {
      return Err(NotFound, StaffNotFound);
    }
    if !matches(currentPassword, db.staff[id].passwordHash) {
      return Err(BadRequest, IncorrectPassword);
    }
    db.staff := db.staff[id := db.staff[id].(passwordHash := newHash)];
    r := Ok(());
  }
}
