/** Fixture lookup: users by profile type and customer profiles by name. */
module UserHelpers {
  import opened Wrappers
  import opened Seqs
  import opened Interfaces

  /** The predicate `u => u.type === type` that `getUser` searches with. */
  function HasType(t: string): User -> bool {
    (u: User) => u.userType == t
  }

  /** All users in the order `getUser` searches them: valid users, then invalid ones. */
  function AllUsers(credentials: UserData): seq<User> {
    credentials.users + credentials.invalidUsers
  }

  /** `getUser(type)`: the first user of that type, or the error `User <type> not found`. */
  function GetUser(credentials: UserData, t: string): (r: Result<User, string>)
    ensures r.Ok? ==> r.value.userType == t && r.value in AllUsers(credentials)
    ensures r.Err? <==> forall u :: u in AllUsers(credentials) ==> u.userType != t
    ensures r.Err? ==> r.error == "User " + t + " not found"
  {
    var found := Find(AllUsers(credentials), HasType(t));
    if found.None? then Err("User " + t + " not found") else Ok(found.value)
  }

  /** When some valid user has the type, the first such valid user is returned, whatever the invalid users hold. */
  lemma GetUserPrefersValidUsers(credentials: UserData, t: string, i: nat)
    requires i < |credentials.users| && credentials.users[i].userType == t
    requires forall j :: 0 <= j < i ==> credentials.users[j].userType != t
    ensures GetUser(credentials, t) == Ok(credentials.users[i])
  {
    FindAppend(credentials.users, credentials.invalidUsers, HasType(t));
    FirstFound(credentials.users, t, i);
  }

  /** When no valid user has the type, the first invalid user of that type is returned. */
  lemma GetUserFallsBackToInvalidUsers(credentials: UserData, t: string, i: nat)
    requires forall u :: u in credentials.users ==> u.userType != t
    requires i < |credentials.invalidUsers| && credentials.invalidUsers[i].userType == t
    requires forall j :: 0 <= j < i ==> credentials.invalidUsers[j].userType != t
    ensures GetUser(credentials, t) == Ok(credentials.invalidUsers[i])
  {
    FindAppend(credentials.users, credentials.invalidUsers, HasType(t));
    FirstFound(credentials.invalidUsers, t, i);
  }

  lemma FirstFound(users: seq<User>, t: string, i: nat)
    requires i < |users| && users[i].userType == t
    requires forall j :: 0 <= j < i ==> users[j].userType != t
    ensures Find(users, HasType(t)) == Some(users[i])
  {
    var found := Find(users, HasType(t));
    assert HasType(t)(users[i]);
    var k :| 0 <= k < |users| && users[k] == found.value && HasType(t)(users[k]) && IsFirst(users, HasType(t), k);
    assert k == i;
  }

  /** `getValidUsers()`: a copy of the valid users, same elements in the same order. */
  function GetValidUsers(credentials: UserData): (r: seq<User>)
    ensures |r| == |credentials.users|
    ensures forall i :: 0 <= i < |r| ==> r[i] == credentials.users[i]
  {
    credentials.users[..]
  }

  /** `getInvalidUsers()`: a copy of the invalid users, same elements in the same order. */
  function GetInvalidUsers(credentials: UserData): (r: seq<User>)
    ensures |r| == |credentials.invalidUsers|
    ensures forall i :: 0 <= i < |r| ==> r[i] == credentials.invalidUsers[i]
  {
    credentials.invalidUsers[..]
  }

  /**
   * `getCustomerInfo(profile = 'default')`: the profile's record unchanged, or
   * the error `Customer profile <profile> not found` when the table has no such profile.
   */
  function GetCustomerInfo(profiles: map<string, CustomerInfo>, profile: string := "default"): (r: Result<CustomerInfo, string>)
    ensures r.Ok? <==> profile in profiles
    ensures r.Ok? ==> r.value == profiles[profile]
    ensures r.Err? ==> r.error == "Customer profile " + profile + " not found"
  {
    if profile !in profiles then Err("Customer profile " + profile + " not found")
    else Ok(profiles[profile])
  }

  /** Called with no profile, `getCustomerInfo` looks up the profile named `default`. */
  lemma GetCustomerInfoDefault(profiles: map<string, CustomerInfo>)
    ensures GetCustomerInfo(profiles) == GetCustomerInfo(profiles, "default")
    ensures "default" in profiles ==> GetCustomerInfo(profiles) == Ok(profiles["default"])
  {
  }

  /** What reading the property `customerInfo[key]` yields on the plain object the fixture file becomes. */
  datatype PropertyValue = OwnProfile(info: CustomerInfo) | InheritedMember(key: string)

  /** The members every plain JavaScript object inherits from `Object.prototype`; each of them is truthy. */
  const ObjectPrototypeMembers: set<string> := {
    "constructor", "hasOwnProperty", "isPrototypeOf", "propertyIsEnumerable",
    "toLocaleString", "toString", "valueOf", "__proto__",
    "__defineGetter__", "__defineSetter__", "__lookupGetter__", "__lookupSetter__"
  }

  /** `customerInfo[key]`: an own profile, else an inherited member, else `undefined`. */
  function PropertyRead(profiles: map<string, CustomerInfo>, key: string): (r: Option<PropertyValue>)
    ensures r.None? <==> key !in profiles && key !in ObjectPrototypeMembers
    ensures key in profiles ==> r == Some(OwnProfile(profiles[key]))
  {
    if key in profiles then Some(OwnProfile(profiles[key]))
    else if key in ObjectPrototypeMembers then Some(InheritedMember(key))
    else None
  }

  /**
   * `getCustomerInfo` as written: the guard `!customerInfo[profile]` only
   * rejects a read that yields `undefined`, so an inherited member passes it
   * and is returned as if it were a profile.
   */
  function GetCustomerInfoAsWritten(profiles: map<string, CustomerInfo>, profile: string := "default"): (r: Result<PropertyValue, string>)
    ensures r.Err? <==> profile !in profiles && profile !in ObjectPrototypeMembers
    ensures r.Ok? ==> Some(r.value) == PropertyRead(profiles, profile)
  {
    var read := PropertyRead(profiles, profile);
    if read.None? then Err("Customer profile " + profile + " not found") else Ok(read.value)
  }

  /** The guard lets `toString` through when no profile has that name, where an error was intended. */
  lemma PrototypeKeyPassesTheGuard(profiles: map<string, CustomerInfo>)
    requires "toString" !in profiles
    ensures GetCustomerInfoAsWritten(profiles, "toString") == Ok(InheritedMember("toString"))
    ensures GetCustomerInfo(profiles, "toString") == Err("Customer profile toString not found")
  {
    assert "Customer profile " + "toString" + " not found" == "Customer profile toString not found";
  }

  /** Away from the inherited names, the code as written and the intended lookup agree. */
  lemma AsWrittenAgreesOffPrototype(profiles: map<string, CustomerInfo>, profile: string)
    requires profile !in ObjectPrototypeMembers
    ensures GetCustomerInfoAsWritten(profiles, profile).Err? <==> GetCustomerInfo(profiles, profile).Err?
    ensures GetCustomerInfo(profiles, profile).Ok? ==>
      GetCustomerInfoAsWritten(profiles, profile) == Ok(OwnProfile(GetCustomerInfo(profiles, profile).value))
  {
  }

  /** `getAllCustomerProfiles()`: the whole table, whose entries are exactly what `getCustomerInfo` finds. */
  function GetAllCustomerProfiles(profiles: map<string, CustomerInfo>): (r: map<string, CustomerInfo>)
    ensures forall p :: p in r <==> GetCustomerInfo(profiles, p).Ok?
    ensures forall p :: p in r ==> GetCustomerInfo(profiles, p) == Ok(r[p])
  {
    profiles
  }
}
