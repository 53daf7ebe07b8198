/** The user controller of the back end (userController.js): creating and
    deleting back-office users, and the administrator's password reset by
    one-time password (OTP), which moves the fields `resetOtp`,
    `resetOtpExpires`, `isOtpVerified` and `password` of the administrator's
    record through three handlers.

    The user collection is the field `users` of a `UserStore`; each handler
    is a method that changes it as the controller changes the stored
    documents. Time is an integer of milliseconds passed in as `now`; the
    value of `Math.random()` is passed in as `random`; whether a mail could
    be sent is passed in as `mailOk`. Every handler is also described by an
    `Outcome` function (response and resulting users), on which the
    properties of handler sequences are proved. */
module UserAccounts {
  import opened Text
  import UA = UserAccess

  /** A stored user document. A missing string field is None. */
  datatype User = User(
    id: nat,
    name: string,
    phone: string,
    username: string,
    password: string,
    email: Option<string>,
    role: string,
    access: UA.Access,
    resetOtp: Option<string>,
    resetOtpExpires: Option<int>,
    isOtpVerified: bool)

  datatype Response = Response(status: nat, message: string)

  /** A handler's answer and the user collection it leaves behind. */
  datatype Outcome = Outcome(response: Response, users: seq<User>)

  /** The username the administrator's record is looked up by. */
  const AdminUsername: string := "Webx Admin"

  /** `10 * 60 * 1000`: an OTP is valid for ten minutes. */
  const OtpLifetime: int := 600000

  /** A request field is truthy: present and not the empty string. */
  predicate Present(v: Option<string>) {
    v.Some? && v.value != []
  }

  /** `findOne({ username })`: the first user with that username. */
  function FindUsername(users: seq<User>, username: string): (r: Option<nat>)
    ensures r.Some? ==> r.value < |users| && users[r.value].username == username
                        && forall j | 0 <= j < r.value :: users[j].username != username
    ensures r.None? ==> forall j | 0 <= j < |users| :: users[j].username != username
    decreases |users|
  {
    if users == [] then None
    else if users[0].username == username then Some(0)
    else
      var rest := FindUsername(users[1..], username);
      assert forall j | 1 <= j < |users| :: users[j] == users[1..][j - 1];
      if rest.Some? then Some(rest.value + 1) else None
  }

  /** The users whose id differs from `id`, in order. */
  function WithoutId(users: seq<User>, id: nat): (r: seq<User>)
    ensures forall u | u in r :: u in users && u.id != id
    ensures forall u | u in users && u.id != id :: u in r
    ensures |r| <= |users|
    decreases |users|
  {
    if users == [] then []
    else if users[0].id == id then WithoutId(users[1..], id)
    else [users[0]] + WithoutId(users[1..], id)
  }

  /** Ids are unique, as the database's `_id` is. */
  predicate UniqueIds(users: seq<User>) {
    forall i, j | 0 <= i < j < |users| :: users[i].id != users[j].id
  }

  /** Deleting an id nobody has changes nothing. */
  lemma {:induction false} WithoutAbsentId(users: seq<User>, id: nat)
    requires forall i | 0 <= i < |users| :: users[i].id != id
    ensures WithoutId(users, id) == users
    decreases |users|
  {
    if users != [] {
      var rest := users[1..];
      assert forall i | 0 <= i < |rest| :: rest[i] == users[i + 1];
      WithoutAbsentId(rest, id);
      assert [users[0]] + rest == users;
    }
  }

  /** With unique ids, deleting an id that is present removes exactly one
      user. */
  lemma {:induction false} WithoutPresentId(users: seq<User>, id: nat)
    requires UniqueIds(users)
    requires exists i | 0 <= i < |users| :: users[i].id == id
    ensures |WithoutId(users, id)| == |users| - 1
    decreases |users|
  {
    var rest := users[1..];
    assert forall i | 0 <= i < |rest| :: rest[i] == users[i + 1];
    if users[0].id == id {
      assert forall i | 0 <= i < |rest| :: rest[i].id != id by {
        forall i | 0 <= i < |rest| ensures rest[i].id != id {
          assert users[0].id != users[i + 1].id;
        }
      }
      WithoutAbsentId(rest, id);
    } else {
      var k :| 0 <= k < |users| && users[k].id == id;
      assert rest[k - 1].id == id;
      assert UniqueIds(rest) by {
        forall a, b | 0 <= a < b < |rest| ensures rest[a].id != rest[b].id {
          assert users[a + 1].id != users[b + 1].id;
        }
      }
      WithoutPresentId(rest, id);
    }
  }

  // ---------------------------------------------------------------------
  // Password rules and the OTP
  // ---------------------------------------------------------------------

  /** `/^(?=.*[a-z])(?=.*[A-Z])(?=.*\d).{6,}$/`: a lower-case letter, an
      upper-case letter and a digit, at least six characters, and (as `.`
      does not match them) no line terminator. */
  predicate StrongPassword(s: string) {
    && HasLower(s) && HasUpper(s) && HasDigit(s) && |s| >= 6
    && forall i | 0 <= i < |s| :: !IsLineTerminator(s[i])
  }

  /** `Math.floor(100000 + Math.random() * 900000)`. */
  function OtpNumber(random: real): (n: nat)
    requires 0.0 <= random < 1.0
    ensures 100000 <= n <= 999999
  {
    (100000.0 + random * 900000.0).Floor
  }

  /** The OTP as stored and mailed: `.toString()` of that number. */
  function OtpCode(random: real): (code: string)
    requires 0.0 <= random < 1.0
    ensures |code| == 6 && AllDigits(code) && Value(code) == OtpNumber(random)
    ensures code[0] != '0'
  {
    var n := OtpNumber(random);
    assert Pow10(5) == 100000 && Pow10(6) == 1000000;
    NatToStringLength(n, 6);
    ValueOfNatToString(n);
    NatToString(n)
  }

  /** `Date.now() > admin.resetOtpExpires`. A missing date is taken as 0,
      as the `null` left by a reset compares; a date never set (`undefined`)
      would compare false instead. The difference is never observed: the
      expiry is set and cleared together with the code, and a missing code
      is refused before the expiry is read. */
  predicate Expired(expires: Option<int>, now: int) {
    now > (if expires.Some? then expires.value else 0)
  }

  // ---------------------------------------------------------------------
  // The handlers as outcomes
  // ---------------------------------------------------------------------

  /** `sendAdminOtp`. The OTP is stored before the mail is sent, so a
      failed mail still leaves the new OTP in place, with a 500 answer. */
  function SendOtp(users: seq<User>, adminEmailSet: bool, random: real, now: int, mailOk: bool): Outcome
    requires 0.0 <= random < 1.0
  {
    if !adminEmailSet then Outcome(Response(500, "ADMIN_EMAIL not set"), users)
    else
      var found := FindUsername(users, AdminUsername);
      if found.None? then Outcome(Response(404, "Admin not found"), users)
      else
        var i := found.value;
        var admin := users[i].(resetOtp := Some(OtpCode(random)),
                               resetOtpExpires := Some(now + OtpLifetime),
                               isOtpVerified := false);
        Outcome(if mailOk then Response(200, "OTP sent successfully") else Response(500, "Failed to send OTP"),
                users[i := admin])
  }

  /** `verifyAdminOtp`. */
  function VerifyOtp(users: seq<User>, otp: Option<string>, now: int): Outcome {
    var found := FindUsername(users, AdminUsername);
    if found.None? then Outcome(Response(404, "Admin not found"), users)
    else
      var i := found.value;
      var admin := users[i];
      if !Present(admin.resetOtp) || admin.resetOtp != otp || Expired(admin.resetOtpExpires, now) then
        Outcome(Response(400, "Invalid or expired OTP"), users)
      else
        Outcome(Response(200, "OTP verified"), users[i := admin.(isOtpVerified := true)])
  }

  /** `resetAdminPassword`. The confirmation mail is sent after the save and
      its failure is swallowed, so `mailOk` has no effect. */
  function ResetPassword(users: seq<User>, newPassword: Option<string>, mailOk: bool): Outcome {
    if !Present(newPassword) then Outcome(Response(400, "New password required"), users)
    else if !StrongPassword(newPassword.value) then Outcome(Response(400, "WEAK_PASSWORD"), users)
    else
      var found := FindUsername(users, AdminUsername);
      if found.None? then Outcome(Response(404, "Admin not found"), users)
      else
        var i := found.value;
        var admin := users[i];
        if !admin.isOtpVerified then Outcome(Response(400, "OTP not verified"), users)
        else if admin.password == newPassword.value then Outcome(Response(400, "SAME_PASSWORD"), users)
        else
          Outcome(Response(200, "Password reset successful"),
                  users[i := admin.(password := newPassword.value, resetOtp := None,
                                    resetOtpExpires := None, isOtpVerified := false)])
  }

  /** The document `User.create` stores: role "user" and no access unless
      given, no OTP, not verified. */
  function NewUserDoc(id: nat, name: string, phone: string, username: string, password: string,
                      email: Option<string>, role: Option<string>, access: Option<UA.Access>): User
  {
    User(id, name, phone, username, password, email,
         if role.Some? then role.value else "user",
         if access.Some? then access.value else UA.EmptyAccess,
         None, None, false)
  }

  // ---------------------------------------------------------------------
  // The store
  // ---------------------------------------------------------------------

  class UserStore {
    var users: seq<User>

    predicate Valid()
      reads this
    {
      UniqueIds(users)
    }

    constructor (initial: seq<User>)
      requires UniqueIds(initial)
      ensures users == initial && Valid()
    {
      users := initial;
    }

    /** `findOne({ username })`, scanning the collection in order. */
    method Find(username: string) returns (found: Option<nat>)
      ensures found == FindUsername(users, username)
    {
      var i := 0;
      while i < |users|
        invariant 0 <= i <= |users|
        invariant forall j | 0 <= j < i :: users[j].username != username
      {
        if users[i].username == username {
          FindFirst(users, username, i);
          return Some(i);
        }
        i := i + 1;
      }
      return None;
    }

    /** `createUser`: 400 unless name, phone, username and password are all
        given; 409 if the username is taken; otherwise exactly one user is
        added and the answer is 201. The id is the fresh one the database
        assigns. */
    method CreateUser(name: Option<string>, phone: Option<string>, username: Option<string>,
                      password: Option<string>, role: Option<string>, access: Option<UA.Access>,
                      email: Option<string>, freshId: nat) returns (r: Response)
      requires Valid()
      requires forall u | u in users :: u.id != freshId
      modifies this
      ensures Valid()
      ensures !(Present(name) && Present(phone) && Present(username) && Present(password))
              ==> r == Response(400, "All fields are required") && users == old(users)
      ensures Present(name) && Present(phone) && Present(username) && Present(password)
              && (exists j | 0 <= j < |old(users)| :: old(users)[j].username == username.value)
              ==> r == Response(409, "Username already exists") && users == old(users)
      ensures Present(name) && Present(phone) && Present(username) && Present(password)
              && (forall j | 0 <= j < |old(users)| :: old(users)[j].username != username.value)
              ==> r.status == 201
                  && users == old(users) + [NewUserDoc(freshId, name.value, phone.value, username.value,
                                                       password.value, email, role, access)]
    {
      if !Present(name) || !Present(phone) || !Present(username) || !Present(password) {
        return Response(400, "All fields are required");
      }
      var taken := Find(username.value);
      if taken.Some? {
        return Response(409, "Username already exists");
      }
      var user := NewUserDoc(freshId, name.value, phone.value, username.value, password.value,
                             email, role, access);
      users := users + [user];
      r := Response(201, "Created");
    }

    /** `deleteUser`: `findByIdAndDelete` then success, whether or not the
        id was there. Only the user with that id goes; the rest keep their
        order. */
    method DeleteUser(id: nat) returns (r: Response)
      requires Valid()
      modifies this
      ensures Valid()
      ensures r == Response(200, "success")
      ensures users == WithoutId(old(users), id)
      ensures (exists i | 0 <= i < |old(users)| :: old(users)[i].id == id) ==> |users| == |old(users)| - 1
      ensures (forall i | 0 <= i < |old(users)| :: old(users)[i].id != id) ==> users == old(users)
    {
      if exists i | 0 <= i < |users| :: users[i].id == id {
        WithoutPresentId(users, id);
      } else {
        WithoutAbsentId(users, id);
      }
      WithoutIdUnique(users, id);
      users := WithoutId(users, id);
      r := Response(200, "success");
    }

    /** `sendAdminOtp`: fields of the administrator's record assigned one by
        one, then saved. */
    method SendAdminOtp(adminEmailSet: bool, random: real, now: int, mailOk: bool) returns (r: Response)
      requires 0.0 <= random < 1.0
      requires Valid()
      modifies this
      ensures Valid()
      ensures Outcome(r, users) == SendOtp(old(users), adminEmailSet, random, now, mailOk)
    {
      if !adminEmailSet {
        return Response(500, "ADMIN_EMAIL not set");
      }
      var found := Find(AdminUsername);
      if found.None? {
        return Response(404, "Admin not found");
      }
      var i := found.value;
      var admin := users[i];
      var otp := OtpCode(random);
      admin := admin.(resetOtp := Some(otp));
      admin := admin.(resetOtpExpires := Some(now + OtpLifetime));
      admin := admin.(isOtpVerified := false);
      users := users[i := admin];
      if !mailOk {
        return Response(500, "Failed to send OTP");
      }
      r := Response(200, "OTP sent successfully");
    }

    /** `verifyAdminOtp`. */
    method VerifyAdminOtp(otp: Option<string>, now: int) returns (r: Response)
      requires Valid()
      modifies this
      ensures Valid()
      ensures Outcome(r, users) == VerifyOtp(old(users), otp, now)
    {
      var found := Find(AdminUsername);
      if found.None? {
        return Response(404, "Admin not found");
      }
      var i := found.value;
      var admin := users[i];
      if !Present(admin.resetOtp) || admin.resetOtp != otp || Expired(admin.resetOtpExpires, now) {
        return Response(400, "Invalid or expired OTP");
      }
      users := users[i := admin.(isOtpVerified := true)];
      r := Response(200, "OTP verified");
    }

    /** `resetAdminPassword`. */
    method ResetAdminPassword(newPassword: Option<string>, mailOk: bool) returns (r: Response)
      requires Valid()
      modifies this
      ensures Valid()
      ensures Outcome(r, users) == ResetPassword(old(users), newPassword, mailOk)
    {
      if !Present(newPassword) {
        return Response(400, "New password required");
      }
      if !StrongPassword(newPassword.value) {
        return Response(400, "WEAK_PASSWORD");
      }
      var found := Find(AdminUsername);
      if found.None? {
        return Response(404, "Admin not found");
      }
      var i := found.value;
      var admin := users[i];
      if !admin.isOtpVerified {
        return Response(400, "OTP not verified");
      }
      if admin.password == newPassword.value {
        return Response(400, "SAME_PASSWORD");
      }
      admin := admin.(password := newPassword.value);
      admin := admin.(resetOtp := None);
      admin := admin.(resetOtpExpires := None);
      admin := admin.(isOtpVerified := false);
      users := users[i := admin];
      r := Response(200, "Password reset successful");
    }
  }

  lemma FindFirst(users: seq<User>, username: string, i: nat)
    requires i < |users| && users[i].username == username
    requires forall j | 0 <= j < i :: users[j].username != username
    ensures FindUsername(users, username) == Some(i)
  {
  }

  lemma {:induction false} WithoutIdUnique(users: seq<User>, id: nat)
    requires UniqueIds(users)
    ensures UniqueIds(WithoutId(users, id))
    decreases |users|
  {
    if users != [] {
      var rest := users[1..];
      assert UniqueIds(rest) by {
        forall i, j | 0 <= i < j < |rest| ensures rest[i].id != rest[j].id {
          assert rest[i] == users[i + 1] && rest[j] == users[j + 1];
        }
      }
      WithoutIdUnique(rest, id);
      if users[0].id != id {
        var w := WithoutId(rest, id);
        forall k | 0 <= k < |w| ensures w[k].id != users[0].id {
          assert w[k] in rest;
        }
      }
    }
  }

  // ---------------------------------------------------------------------
  // Properties of the reset sequence
  // ---------------------------------------------------------------------

  /** Issuing an OTP touches only the administrator's record: it stores a
      six-digit code in [100000, 999999], an expiry ten minutes ahead, and
      clears any earlier verification, even when the mail then fails. */
  lemma SendOtpEffect(users: seq<User>, random: real, now: int, mailOk: bool)
    requires 0.0 <= random < 1.0
    requires FindUsername(users, AdminUsername).Some?
    ensures var i := FindUsername(users, AdminUsername).value;
      var after := SendOtp(users, true, random, now, mailOk).users;
      && |after| == |users|
      && (forall j | 0 <= j < |users| && j != i :: after[j] == users[j])
      && after[i].resetOtp.Some? && |after[i].resetOtp.value| == 6
      && 100000 <= Value(after[i].resetOtp.value) <= 999999
      && after[i].resetOtpExpires == Some(now + OtpLifetime)
      && !after[i].isOtpVerified
      && after[i].password == users[i].password
      && FindUsername(after, AdminUsername) == Some(i)
  {
    var i := FindUsername(users, AdminUsername).value;
    var after := SendOtp(users, true, random, now, mailOk).users;
    FindFirst(after, AdminUsername, i);
  }

  /** An OTP is accepted exactly when one is stored, the code matches and
      its expiry has not passed; acceptance sets only the verified flag and
      leaves the OTP in place. */
  lemma VerifyOtpRule(users: seq<User>, otp: Option<string>, now: int)
    requires FindUsername(users, AdminUsername).Some?
    ensures var i := FindUsername(users, AdminUsername).value; var admin := users[i];
      var out := VerifyOtp(users, otp, now);
      && (out.response.status == 200 <==>
            Present(admin.resetOtp) && admin.resetOtp == otp && !Expired(admin.resetOtpExpires, now))
      && (out.response.status == 200 ==> out.users == users[i := admin.(isOtpVerified := true)])
      && (out.response.status != 200 ==> out.users == users)
  {
  }

  /** The reset checks come in this order: missing password, weak password,
      missing administrator, OTP not verified, same password. In particular
      a weak password is refused before the administrator is even looked
      up, and a refused reset changes nothing. */
  lemma ResetCheckOrder(users: seq<User>, newPassword: Option<string>, mailOk: bool)
    ensures var out := ResetPassword(users, newPassword, mailOk);
      && (!Present(newPassword) ==> out.response == Response(400, "New password required"))
      && ((Present(newPassword) && !StrongPassword(newPassword.value))
            ==> out.response == Response(400, "WEAK_PASSWORD"))
      && ((Present(newPassword) && StrongPassword(newPassword.value) && FindUsername(users, AdminUsername).None?)
            ==> out.response.status == 404)
      && (out.response.status != 200 ==> out.users == users)
      && (out.response.status == 200 <==>
            Present(newPassword) && StrongPassword(newPassword.value)
            && FindUsername(users, AdminUsername).Some?
            && users[FindUsername(users, AdminUsername).value].isOtpVerified
            && users[FindUsername(users, AdminUsername).value].password != newPassword.value)
  {
  }

  /** Whether the confirmation mail goes out makes no difference. */
  lemma ResetIgnoresMail(users: seq<User>, newPassword: Option<string>)
    ensures ResetPassword(users, newPassword, true) == ResetPassword(users, newPassword, false)
  {
  }

  /** A successful reset stores the new password and clears the OTP, its
      expiry and the verified flag; so a second reset, without a fresh
      verification, is refused with "OTP not verified". */
  lemma {:induction false} SecondResetRefused(users: seq<User>, first: string, second: string, mail1: bool, mail2: bool)
    requires ResetPassword(users, Some(first), mail1).response.status == 200
    requires second != [] && StrongPassword(second)
    ensures var after := ResetPassword(users, Some(first), mail1).users;
      var i := FindUsername(users, AdminUsername).value;
      && after[i].password == first
      && after[i].resetOtp.None? && after[i].resetOtpExpires.None? && !after[i].isOtpVerified
      && ResetPassword(after, Some(second), mail2).response == Response(400, "OTP not verified")
  {
    var i := FindUsername(users, AdminUsername).value;
    var after := ResetPassword(users, Some(first), mail1).users;
    FindFirst(after, AdminUsername, i);
  }

  /** A new OTP withdraws an earlier verification: send, verify, send
      again, and the reset is refused until the new code is verified. */
  lemma ReissueRevokesVerification(users: seq<User>, r1: real, r2: real, now: int, later: int,
                                   newPassword: string)
    requires 0.0 <= r1 < 1.0 && 0.0 <= r2 < 1.0
    requires FindUsername(users, AdminUsername).Some?
    requires newPassword != [] && StrongPassword(newPassword)
    ensures var s1 := SendOtp(users, true, r1, now, true).users;
      var v := VerifyOtp(s1, Some(OtpCode(r1)), now).users;
      var s2 := SendOtp(v, true, r2, later, true).users;
      ResetPassword(s2, Some(newPassword), true).response == Response(400, "OTP not verified")
  {
    var i := FindUsername(users, AdminUsername).value;
    var s1 := SendOtp(users, true, r1, now, true).users;
    FindFirst(s1, AdminUsername, i);
    var v := VerifyOtp(s1, Some(OtpCode(r1)), now).users;
    FindFirst(v, AdminUsername, i);
    var s2 := SendOtp(v, true, r2, later, true).users;
    FindFirst(s2, AdminUsername, i);
  }

  /** The whole flow: an OTP sent at `now` and entered correctly by
      now + 10 minutes lets the administrator set any strong password that
      differs from the current one. */
  lemma ResetFlow(users: seq<User>, random: real, now: int, later: int, newPassword: string)
    requires 0.0 <= random < 1.0
    requires FindUsername(users, AdminUsername).Some?
    requires now <= later <= now + OtpLifetime
    requires newPassword != [] && StrongPassword(newPassword)
    requires users[FindUsername(users, AdminUsername).value].password != newPassword
    ensures var s := SendOtp(users, true, random, now, true);
      var v := VerifyOtp(s.users, Some(OtpCode(random)), later);
      var r := ResetPassword(v.users, Some(newPassword), false);
      var i := FindUsername(users, AdminUsername).value;
      && s.response.status == 200 && v.response.status == 200 && r.response.status == 200
      && r.users == users[i := users[i].(password := newPassword, resetOtp := None,
                                          resetOtpExpires := None, isOtpVerified := false)]
  {
    var i := FindUsername(users, AdminUsername).value;
    var v := SendThenVerify(users, random, now, later);
    ResetAfterVerify(v, i, newPassword);
  }

  /** Sending and then entering the code in time leaves the administrator
      verified, with the code still stored. */
  lemma SendThenVerify(users: seq<User>, random: real, now: int, later: int) returns (v: seq<User>)
    requires 0.0 <= random < 1.0
    requires FindUsername(users, AdminUsername).Some?
    requires now <= later <= now + OtpLifetime
    ensures var i := FindUsername(users, AdminUsername).value;
      var s := SendOtp(users, true, random, now, true);
      && s.response.status == 200
      && VerifyOtp(s.users, Some(OtpCode(random)), later) == Outcome(Response(200, "OTP verified"), v)
      && v == users[i := users[i].(resetOtp := Some(OtpCode(random)),
                                   resetOtpExpires := Some(now + OtpLifetime), isOtpVerified := true)]
      && FindUsername(v, AdminUsername) == Some(i)
  {
    var i := FindUsername(users, AdminUsername).value;
    var s := SendOtp(users, true, random, now, true).users;
    FindFirst(s, AdminUsername, i);
    v := s[i := s[i].(isOtpVerified := true)];
    FindFirst(v, AdminUsername, i);
  }

  /** Once verified, a strong new password is taken and the reset fields
      are cleared. */
  lemma ResetAfterVerify(v: seq<User>, i: nat, newPassword: string)
    requires FindUsername(v, AdminUsername) == Some(i)
    requires v[i].isOtpVerified && v[i].password != newPassword
    requires newPassword != [] && StrongPassword(newPassword)
    ensures ResetPassword(v, Some(newPassword), false)
            == Outcome(Response(200, "Password reset successful"),
                       v[i := v[i].(password := newPassword, resetOtp := None,
                                    resetOtpExpires := None, isOtpVerified := false)])
  {
  }

  /** An OTP entered more than ten minutes after it was sent is refused. */
  lemma ExpiredOtpRefused(users: seq<User>, random: real, now: int, later: int)
    requires 0.0 <= random < 1.0
    requires FindUsername(users, AdminUsername).Some?
    requires later > now + OtpLifetime
    ensures var s := SendOtp(users, true, random, now, true).users;
      VerifyOtp(s, Some(OtpCode(random)), later) == Outcome(Response(400, "Invalid or expired OTP"), s)
  {
    var i := FindUsername(users, AdminUsername).value;
    var s := SendOtp(users, true, random, now, true).users;
    FindFirst(s, AdminUsername, i);
  }
}
