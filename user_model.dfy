/**
 * The monolith's user document: its paths, the setters Mongoose applies when
 * a path is assigned (`trim`, `lowercase`), the defaults it fills in when a
 * document is built, and the validators `save` runs (`required`, `enum`, the
 * contact-number pattern). The password path is left out.
 */
module UserModel {
  import opened Common
  import opened Text
  import opened Patterns

  const Roles: set<string> := {"buyer", "seller", "admin"}
  const Statuses: set<string> := {"active", "suspended"}
  const AddressTypes: set<string> := {"Billing", "Shipping"}

  /** An entry of `addresses`; `kind` is its `type` path, which an update may leave unset. */
  datatype Address = Address(id: Id, kind: Option<string>, details: Option<string>, isDefault: bool)

  /**
   * A user document as stored. Documents written outside the schema may lack
   * paths, so every scalar path is optional.
   */
  datatype User = User(
    name: Option<string>,
    email: Option<string>,
    contactNumber: Option<string>,
    role: Option<string>,
    status: Option<string>,
    onboardingComplete: Option<bool>,
    addresses: seq<Address>)

  /** `/^\d{10}$/`. */
  const TenDigits: seq<CharClass> := Repeat(Digit, 10)

  predicate IsContactNumber(v: string) {
    Matches(TenDigits, v)
  }

  /** The contact-number pattern accepts exactly the strings of ten decimal digits. */
  lemma {:induction false} ContactNumberShape(v: string)
    ensures IsContactNumber(v) <==> |v| == 10 && forall i :: 0 <= i < |v| ==> IsDigit(v[i])
  {
    if IsContactNumber(v) {
      MatchesExactly(TenDigits, v);
    }
    if |v| == 10 && forall i :: 0 <= i < |v| ==> IsDigit(v[i]) {
      MatchesWhenInClass(TenDigits, v);
    }
  }

  /** `required: true` on a String path: present and not empty. */
  predicate Required(v: Option<string>) {
    Truthy(v)
  }

  predicate ValidAddress(a: Address) {
    Required(a.kind) && a.kind.value in AddressTypes && Required(a.details)
  }

  /**
   * What `save` checks. The enum and pattern validators do not run on an
   * absent path; `required` does.
   */
  predicate ValidUser(u: User) {
    && Required(u.name)
    && Required(u.email)
    && Required(u.contactNumber) && IsContactNumber(u.contactNumber.value)
    && Required(u.role) && u.role.value in Roles
    && (u.status.Some? ==> u.status.value in Statuses)
    && (forall i :: 0 <= i < |u.addresses| ==> ValidAddress(u.addresses[i]))
  }

  /** The `trim: true` setter. */
  function Trimmed(v: Option<string>): (r: Option<string>)
    ensures r.Some? <==> v.Some?
    ensures r.Some? ==> |r.value| <= |v.value| && (r.value == [] <==> AllSpace(v.value))
  {
    match v
    case None => None
    case Some(s) => Some(Trim(s))
  }

  /** The email setters, `trim` then `lowercase`. */
  function StoredEmail(v: Option<string>): (r: Option<string>)
    ensures r.Some? <==> v.Some?
  {
    match v
    case None => None
    case Some(s) => Some(Lower(Trim(s)))
  }

  /** The two email setters commute, and a stored email is its own normal form. */
  lemma {:induction false} StoredEmailNormal(v: Option<string>)
    ensures v.Some? ==> Trim(Lower(v.value)) == Lower(Trim(v.value))
    ensures StoredEmail(StoredEmail(v)) == StoredEmail(v)
  {
    if v.Some? {
      var s := v.value;
      TrimLower(s);
      TrimLower(Trim(s));
      TrimIdempotent(s);
      LowerIdempotent(Trim(s));
    }
  }

  /** An `addresses` entry as given. */
  datatype AddressInput = AddressInput(kind: Option<string>, details: Option<string>, isDefault: Option<bool>)

  /** The fields given to `new User(...)`. */
  datatype UserInput = UserInput(
    name: Option<string>,
    email: Option<string>,
    contactNumber: Option<string>,
    role: Option<string>,
    status: Option<string>,
    onboardingComplete: Option<bool>,
    addresses: seq<AddressInput>)

  /** A new address subdocument: the generated `_id`, and `isDefault` false unless given. */
  function NewAddress(a: AddressInput, id: Id): (r: Address)
    ensures r.id == id && r.kind == a.kind && r.details == a.details
    ensures r.isDefault <==> a.isDefault == Some(true)
  {
    Address(id, a.kind, a.details, a.isDefault == Some(true))
  }

  /** `new User(input)`: setters on the given paths, defaults on the missing ones. */
  function Build(input: UserInput, addressIds: seq<Id>): (u: User)
    requires |addressIds| == |input.addresses|
    ensures u.status == if input.status.Some? then input.status else Some("active")
    ensures u.onboardingComplete == if input.onboardingComplete.Some? then input.onboardingComplete else Some(false)
    ensures |u.addresses| == |input.addresses|
    ensures forall i :: 0 <= i < |u.addresses| ==> u.addresses[i] == NewAddress(input.addresses[i], addressIds[i])
  {
    User(
      Trimmed(input.name),
      StoredEmail(input.email),
      Trimmed(input.contactNumber),
      input.role,
      Some(input.status.GetOr("active")),
      Some(input.onboardingComplete.GetOr(false)),
      seq(|input.addresses|, i requires 0 <= i < |input.addresses| => NewAddress(input.addresses[i], addressIds[i])))
  }

  /**
   * The inputs `save` accepts once the setters and defaults have run. A name
   * or email that is only whitespace is empty once trimmed and so fails
   * `required`; the contact number is trimmed before its pattern is checked.
   */
  predicate AcceptedInput(input: UserInput) {
    && input.name.Some? && !AllSpace(input.name.value)
    && input.email.Some? && !AllSpace(input.email.value)
    && input.contactNumber.Some? && IsContactNumber(Trim(input.contactNumber.value))
    && input.role.Some? && input.role.value in Roles
    && (input.status.None? || input.status.value in Statuses)
    && (forall i :: 0 <= i < |input.addresses| ==>
          input.addresses[i].kind.Some? && input.addresses[i].kind.value in AddressTypes
          && Required(input.addresses[i].details))
  }

  /** The address entries of a built document pass validation exactly when the given ones have a valid type and details. */
  lemma BuildAddressesAccepted(input: UserInput, addressIds: seq<Id>)
    requires |addressIds| == |input.addresses|
    ensures (forall i :: 0 <= i < |Build(input, addressIds).addresses| ==> ValidAddress(Build(input, addressIds).addresses[i])) <==>
      (forall i :: 0 <= i < |input.addresses| ==>
        input.addresses[i].kind.Some? && input.addresses[i].kind.value in AddressTypes
        && Required(input.addresses[i].details))
  {
    var u := Build(input, addressIds);
    assert forall i :: 0 <= i < |u.addresses| ==> u.addresses[i].kind == input.addresses[i].kind && u.addresses[i].details == input.addresses[i].details;
  }

  /** A trimmed name passes `required` exactly when it is given and not only whitespace. */
  lemma NameAccepted(v: Option<string>)
    ensures Required(Trimmed(v)) <==> v.Some? && !AllSpace(v.value)
  {
  }

  /** So does a stored email: lower-casing keeps the length. */
  lemma EmailAccepted(v: Option<string>)
    ensures Required(StoredEmail(v)) <==> v.Some? && !AllSpace(v.value)
  {
    if v.Some? {
      assert |Lower(Trim(v.value))| == |Trim(v.value)|;
    }
  }

  /** A trimmed contact number passes `required` and the pattern exactly when its trimmed text matches. */
  lemma ContactAccepted(v: Option<string>)
    ensures Required(Trimmed(v)) && IsContactNumber(Trimmed(v).value) <==> v.Some? && IsContactNumber(Trim(v.value))
  {
    if v.Some? {
      ContactNumberShape(Trim(v.value));
    }
  }

  /** The built document passes validation exactly when its input is accepted. */
  lemma BuildAccepted(input: UserInput, addressIds: seq<Id>)
    requires |addressIds| == |input.addresses|
    ensures ValidUser(Build(input, addressIds)) <==> AcceptedInput(input)
  {
    NameAccepted(input.name);
    EmailAccepted(input.email);
    ContactAccepted(input.contactNumber);
    BuildAddressesAccepted(input, addressIds);
  }

  /** Building and saving a new user: the stored document, or None for a validation error. */
  function CreateUser(input: UserInput, addressIds: seq<Id>): (r: Option<User>)
    requires |addressIds| == |input.addresses|
    ensures r.Some? <==> AcceptedInput(input)
    ensures r.Some? ==> ValidUser(r.value)
    ensures r.Some? ==>
      && r.value.name == Some(Trim(input.name.value))
      && r.value.email == Some(Lower(Trim(input.email.value)))
      && r.value.contactNumber == Some(Trim(input.contactNumber.value))
      && r.value.status.Some? && r.value.onboardingComplete.Some?
      && (input.status.None? ==> r.value.status == Some("active"))
      && (input.onboardingComplete.None? ==> r.value.onboardingComplete == Some(false))
  {
    var u := Build(input, addressIds);
    BuildAccepted(input, addressIds);
    if ValidUser(u) then Some(u) else None
  }

  /** The input that rebuilds a stored user, with its subdocument ids. */
  function InputOf(u: User): (input: UserInput)
    ensures |input.addresses| == |u.addresses|
  {
    UserInput(u.name, u.email, u.contactNumber, u.role, u.status, u.onboardingComplete,
      seq(|u.addresses|, i requires 0 <= i < |u.addresses| =>
        AddressInput(u.addresses[i].kind, u.addresses[i].details, Some(u.addresses[i].isDefault))))
  }

  function AddressIds(u: User): (ids: seq<Id>)
    ensures |ids| == |u.addresses| && forall i :: 0 <= i < |ids| ==> ids[i] == u.addresses[i].id
  {
    seq(|u.addresses|, i requires 0 <= i < |u.addresses| => u.addresses[i].id)
  }

  /**
   * Setters and defaults are idempotent: a created user, fed back through
   * `new User(...)` and `save`, is stored unchanged.
   */
  lemma {:induction false} CreatedUserIsStable(input: UserInput, addressIds: seq<Id>)
    requires |addressIds| == |input.addresses|
    requires CreateUser(input, addressIds).Some?
    ensures var u := CreateUser(input, addressIds).value;
      CreateUser(InputOf(u), AddressIds(u)) == Some(u)
  {
    var u := CreateUser(input, addressIds).value;
    assert u == Build(input, addressIds);
    TrimIdempotent(input.name.value);
    TrimIdempotent(input.contactNumber.value);
    StoredEmailNormal(input.email);
    RebuildKeepsAddresses(u);
    assert Build(InputOf(u), AddressIds(u)) == u;
  }

  /** Feeding a stored user's addresses back through `new User(...)`, with their ids, rebuilds them unchanged. */
  lemma RebuildKeepsAddresses(u: User)
    ensures Build(InputOf(u), AddressIds(u)).addresses == u.addresses
  {
    var again := InputOf(u);
    var rebuilt := Build(again, AddressIds(u)).addresses;
    forall i | 0 <= i < |u.addresses|
      ensures rebuilt[i] == u.addresses[i]
    {
      assert again.addresses[i].isDefault == Some(u.addresses[i].isDefault);
    }
  }
}
