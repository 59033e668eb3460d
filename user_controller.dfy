/** The customer handlers (backend/controllers/userController.js): create and
    update under a unique-email rule for the emails that are given, delete,
    and the substring search. */
module UserController {
  import opened Common
  import opened Store
  import opened Sorting
  import opened Listing

  /** The body of a create or an update; each field may be omitted. */
  datatype UserFields = UserFields(name: Option<string>, email: Option<string>, phone: Option<string>, address: Option<string>)

  /** The route validator's rules for the fields that are given (backend/routes/users.js). */
  predicate FieldsWellFormed(f: UserFields) {
    && (f.name.Some? ==> |f.name.value| >= 2)
    && (f.email.Some? ==> f.email.value != "")
    && (f.phone.Some? ==> |f.phone.value| >= 10)
    && (f.address.Some? ==> |f.address.value| >= 5)
  }

  /** Some user other than `except` has email `email`; with `except` None, any user counts. */
  predicate EmailTaken(users: map<UserId, User>, email: string, except: Option<UserId>) {
    exists u | u in users && Some(u) != except :: users[u].email == Some(email)
  }

  /** The check runs only when an email is given. */
  predicate EmailClash(users: map<UserId, User>, email: Option<string>, except: Option<UserId>) {
    email.Some? && EmailTaken(users, email.value, except)
  }

  /** `COALESCE(?, column)` on every column. */
  function Merged(u: User, f: UserFields): User {
    User(f.name.GetOr(u.name),
         if f.email.Some? then f.email else u.email,
         if f.phone.Some? then f.phone else u.phone,
         if f.address.Some? then f.address else u.address)
  }

  /** An update cannot clear a field: what was set stays set. */
  lemma MergeNeverClears(u: User, f: UserFields)
    ensures u.email.Some? ==> Merged(u, f).email.Some?
    ensures u.phone.Some? ==> Merged(u, f).phone.Some?
    ensures u.address.Some? ==> Merged(u, f).address.Some?
  {
  }

  /** POST /api/users. `userId` is the uuid the handler generates. */
  method CreateUser(db: Db, f: UserFields, userId: UserId) returns (r: Response<Row<UserId, User>>)
    requires db.Valid()
    requires f.name.Some? && FieldsWellFormed(f)
    requires userId !in db.users
    modifies db
    ensures db.Valid()
    ensures r.Err? <==> EmailClash(old(db.users), f.email, None)
    ensures r.Err? ==> r == Err(BadRequest, EmailInUse) && unchanged(db)
    ensures r.Ok? ==>
      && r.value == Row(userId, User(f.name.value, f.email, f.phone, f.address))
      && db.users == old(db.users)[userId := r.value.value]
      && db.products == old(db.products) && db.categories == old(db.categories) && db.staff == old(db.staff)
      && db.sales == old(db.sales) && db.saleItems == old(db.saleItems)
  {
    if f.email.Some? && exists u | u in db.users :: db.users[u].email == f.email {
      return Err(BadRequest, EmailInUse);
    }
    var user := User(f.name.value, f.email, f.phone, f.address);
    db.users := db.users[userId := user];
    r := Ok(Row(userId, user));
  }

  /** PUT /api/users/:id. Keeping one's own email is not a clash. */
  method UpdateUser(db: Db, id: UserId, f: UserFields) returns (r: Response<()>)
    requires db.Valid()
    requires FieldsWellFormed(f)
    modifies db
    ensures db.Valid()
    ensures r.Err? ==> unchanged(db)
    ensures id !in old(db.users) ==> r == Err(NotFound, UserNotFound)
    ensures id in old(db.users) && EmailClash(old(db.users), f.email, Some(id)) ==> r == Err(BadRequest, EmailInUse)
    ensures r.Ok? <==> id in old(db.users) && !EmailClash(old(db.users), f.email, Some(id))
    ensures id in old(db.users) && f.email == old(db.users)[id].email ==> r.Ok?
    ensures r.Ok? ==>
      && db.users == old(db.users)[id := Merged(old(db.users)[id], f)]
      && db.products == old(db.products) && db.categories == old(db.categories) && db.staff == old(db.staff)
      && db.sales == old(db.sales) && db.saleItems == old(db.saleItems)
  {
    if id !in db.users {
      return Err(NotFound, UserNotFound);
    }
    if f.email.Some? && exists u | u in db.users && u != id :: db.users[u].email == f.email {
      return Err(BadRequest, EmailInUse);
    }
    db.users := db.users[id := Merged(db.users[id], f)];
    r := Ok(());
  }

  /** DELETE /api/users/:id. */
  method DeleteUser(db: Db, id: UserId) returns (r: Response<()>)
    requires db.Valid()
    modifies db
    ensures db.Valid()
    ensures r.Err? <==> id !in old(db.users)
    ensures r.Err? ==> r == Err(NotFound, UserNotFound) && unchanged(db)
    ensures r.Ok? ==>
      && db.users == old(db.users) - {id}
      && db.products == old(db.products) && db.categories == old(db.categories) && db.staff == old(db.staff)
      && db.sales == old(db.sales) && db.saleItems == old(db.saleItems)
  {
    if id !in db.users {
      return Err(NotFound, UserNotFound);
    }
    db.users := db.users - {id};
    r := Ok(());
  }

  // ----- GET /api/users/search -----

  /** `name LIKE '%q%' OR email LIKE '%q%' OR phone LIKE '%q%'`; a NULL column matches nothing. */
  function MatchesQuery(q: string): User -> bool {
    (u: User) => Contains(u.name, q) || (u.email.Some? && Contains(u.email.value, q)) || (u.phone.Some? && Contains(u.phone.value, q))
  }

  /** `ORDER BY name ASC`. */
  predicate ByUserName(a: Row<UserId, User>, b: Row<UserId, User>) {
    StrLe(a.value.name, b.value.name)
  }

  lemma ByUserNamePreorder()
    ensures TotalPreorder(ByUserName)
  {
    forall a, b ensures ByUserName(a, b) || ByUserName(b, a) {
      StrLeTotal(a.value.name, b.value.name);
    }
    forall a, b, c | ByUserName(a, b) && ByUserName(b, c) ensures ByUserName(a, c) {
      StrLeTransitive(a.value.name, b.value.name, c.value.name);
    }
  }

  /** A string containing `q + more` contains `q`. */
  lemma ContainsPrefix(s: string, q: string, more: string)
    requires Contains(s, q + more)
    ensures Contains(s, q)
  {
    var i :| 0 <= i <= |s| - |q + more| && OccursAt(s, q + more, i);
    assert s[i..i + |q|] == s[i..i + |q + more|][..|q|] == (q + more)[..|q|] == q;
    assert OccursAt(s, q, i);
  }

  /** Typing more of the query never finds more customers. */
  lemma SearchNarrows(users: map<UserId, User>, q: string, more: string)
    ensures KeysWhere(users, MatchesQuery(q + more)) <= KeysWhere(users, MatchesQuery(q))
  {
    forall u | u in KeysWhere(users, MatchesQuery(q + more))
      ensures u in KeysWhere(users, MatchesQuery(q))
    {
      var x := users[u];
      if Contains(x.name, q + more) {
        ContainsPrefix(x.name, q, more);
      } else if x.email.Some? && Contains(x.email.value, q + more) {
        ContainsPrefix(x.email.value, q, more);
      } else {
        ContainsPrefix(x.phone.value, q, more);
      }
    }
  }

  /** GET /api/users/search?q=. A missing query is the empty string. */
  method SearchUsers(db: Db, q: string) returns (r: Response<seq<Row<UserId, User>>>)
    ensures r.Err? <==> q == ""
    ensures r.Err? ==> r == Err(BadRequest, QueryRequired)
    ensures r.Ok? ==> RowsWhere(r.value, db.users, MatchesQuery(q)) && SortedBy(r.value, ByUserName)
    ensures r.Ok? ==> |r.value| == |KeysWhere(db.users, MatchesQuery(q))|
  {
    if q == "" {
      return Err(BadRequest, QueryRequired);
    }
    var all := ScanTable(db.users);
    var keep := MatchesQuery(q);
    WhereLists(all, db.users, keep);
    ByUserNamePreorder();
    var rows := Sort(Where(all, keep), ByUserName);
    SortKeepsListing(Where(all, keep), db.users, keep, ByUserName);
    ListingCount(rows, db.users, keep);
    r := Ok(rows);
  }
}
