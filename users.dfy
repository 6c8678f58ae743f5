/** The user-management page: an append-only list of users whose ids count
    up from 1, and the "Add New User" form. The role label here is separate
    from the permissions page's roles. */
module Users {

  datatype UserRole = Admin | Manager | Member

  datatype User = User(id: int, name: string, email: string, role: UserRole)

  /** The form record: a user without its id. */
  datatype UserForm = UserForm(name: string, email: string, role: UserRole)

  /** One change event of the form, named by the input it comes from. */
  datatype FieldChange = NameInput(name: string) | EmailInput(email: string) | RoleInput(role: UserRole)

  const EmptyForm: UserForm := UserForm("", "", Member)

  const InitialUsers: seq<User> := [
    User(1, "Alice Johnson", "alice@example.com", Admin),
    User(2, "Bob Smith", "bob@example.com", Manager),
    User(3, "Charlie Brown", "charlie@example.com", Member)
  ]

  /** The i-th user (from 0) has id i + 1. */
  predicate SequentialIds(users: seq<User>) {
    forall i :: 0 <= i < |users| ==> users[i].id == i + 1
  }

  predicate UniqueIds(users: seq<User>) {
    forall i, j :: 0 <= i < |users| && 0 <= j < |users| && users[i].id == users[j].id ==> i == j
  }

  /** `{ ...prev, [name]: value }`: the named field takes the new value and
      the other two keep theirs. */
  function WithInput(form: UserForm, change: FieldChange): (f: UserForm)
    ensures change.NameInput? ==> f.name == change.name && f.email == form.email && f.role == form.role
    ensures change.EmailInput? ==> f.email == change.email && f.name == form.name && f.role == form.role
    ensures change.RoleInput? ==> f.role == change.role && f.name == form.name && f.email == form.email
  {
    match change
    case NameInput(v) => form.(name := v)
    case EmailInput(v) => form.(email := v)
    case RoleInput(v) => form.(role := v)
  }

  /** The list after one add: the old users in order, then the form's
      values (unchecked) under the next id. */
  function Appended(users: seq<User>, form: UserForm): (r: seq<User>)
    ensures |r| == |users| + 1 && r[..|users|] == users
    ensures r[|users|].id == |users| + 1
    ensures r[|users|].name == form.name && r[|users|].email == form.email && r[|users|].role == form.role
  {
    users + [User(|users| + 1, form.name, form.email, form.role)]
  }

  lemma InitialUsersSequential()
    ensures SequentialIds(InitialUsers) && |InitialUsers| == 3
  {
  }

  /** Ids counted from 1 are pairwise distinct. */
  lemma SequentialIdsUnique(users: seq<User>)
    requires SequentialIds(users)
    ensures UniqueIds(users)
  {
  }

  /** Appending under the next id keeps the ids counting from 1. */
  lemma AppendedSequential(users: seq<User>, form: UserForm)
    requires SequentialIds(users)
    ensures SequentialIds(Appended(users, form))
  {
  }

  class UsersPage {
    var users: seq<User>
    var newUser: UserForm

    ghost predicate Valid()
      reads this
    {
      SequentialIds(users)
    }

    constructor ()
      ensures Valid() && UniqueIds(users)
      ensures users == InitialUsers && newUser == EmptyForm
    {
      users := InitialUsers;
      newUser := EmptyForm;
      InitialUsersSequential();
      SequentialIdsUnique(InitialUsers);
    }

    method HandleInputChange(change: FieldChange)
      requires Valid()
      modifies this
      ensures Valid()
      ensures newUser == WithInput(old(newUser), change)
      ensures users == old(users)
    {
      newUser := WithInput(newUser, change);
    }

    /** Appends the form as a new user with id `users.length + 1` and resets
        the form. */
    method AddUser()
      requires Valid()
      modifies this
      ensures Valid() && UniqueIds(users)
      ensures users == Appended(old(users), old(newUser))
      ensures newUser == EmptyForm
    {
      AppendedSequential(users, newUser);
      users := Appended(users, newUser);
      newUser := EmptyForm;
      SequentialIdsUnique(users);
    }
  }

  /** Adding one user to the seeded list gives it id 4. */
  method AddScenario()
  {
    var page := new UsersPage();
    page.HandleInputChange(NameInput("X"));
    page.HandleInputChange(EmailInput("x@x.com"));
    page.HandleInputChange(RoleInput(Member));
    page.AddUser();
    assert |page.users| == 4 && page.users[3] == User(4, "X", "x@x.com", Member);
    assert page.newUser == EmptyForm;
  }
}
