// The auth handlers as they run: one method per handler, one assignment per SQL statement
// (internal/app/auth.go). Each is proved to be the step of the same name in module Auth.
module AuthServer {
  import opened Common
  import Lockout
  import Sessions
  import Text
  import opened Auth

  class Server {
    var users: map<nat, User>
    var emails: map<string, nat>
    var otps: seq<Otp>
    var verifications: map<string, Verification>
    var sessions: Sessions.Table

    function View(): State
      reads this
    {
      State(users, emails, otps, verifications, sessions)
    }

    constructor ()
      ensures View() == Empty
    {
      users, emails, otps, verifications, sessions := map[], map[], [], map[], map[];
    }

    method RequestOTP(now: nat, raw: string, code: string, ttl: nat) returns (r: Reply)
      modifies this
      ensures (View(), r) == Step(old(View()), now, Auth.RequestOTP(raw, code, ttl))
    {
      if raw == "" { return BadRequest; }
      var email := Address(raw);
      if email in emails { return AlreadyRegistered; }
      if RecentCode(otps, email, now) { return Sent; }
      otps := otps + [NewOtp(email, code, ttl, now)];
      return Sent;
    }

    method VerifyOTP(now: nat, email: string, code: string, token: string) returns (r: Reply)
      modifies this
      ensures (View(), r) == Step(old(View()), now, Auth.VerifyOTP(email, code, token))
    {
      var i := Latest(otps, email);
      if i < 0 { return InvalidCode; }
      if !(otps[i].expiresAt > now) { return CodeExpired; }
      if otps[i].attempts >= MAX_OTP_ATTEMPTS { return TooManyAttempts; }
      otps := otps[i := otps[i].(attempts := otps[i].attempts + 1)];
      if otps[i].hash != Bcrypt(code) { return InvalidCode; }
      otps := otps[i := otps[i].(consumedAt := Some(now))];
      assert otps == old(otps)[i := otps[i]];
      verifications := verifications[token := Verification(email, now + VERIFICATION_TTL, None)];
      return Verified(token);
    }

    method Register(now: nat, email: string, verification: string, name: string, password: string,
                    uid: nat, family: nat, refresh: string) returns (r: Reply)
      modifies this
      ensures (View(), r) == Step(old(View()), now, Auth.Register(email, verification, name, password, uid, family, refresh))
    {
      if email == "" || verification == "" || name == "" { return BadRequest; }
      if |password| < MIN_PASSWORD { return BadRequest; }
      if verification !in verifications { return InvalidToken; }
      var v := verifications[verification];
      if v.consumedAt.Some? { return InvalidToken; }
      if v.expiresAt < now { return TokenExpired; }
      if v.email != email { return InvalidToken; }
      verifications := verifications[verification := v.(consumedAt := Some(now))];
      if email in emails { return EmailTaken; }
      if |password| > Lockout.MAX_PASSWORD { return ServerError; }
      users := users[uid := User(Some(email), false, Some(Lockout.Account(Lockout.HashOf(password), 0, None)))];
      emails := emails[email := uid];
      sessions := Sessions.StoreToken(sessions, uid, family, refresh, now);
      return Session(uid, refresh);
    }

    method Login(now: nat, email: string, password: string, family: nat, refresh: string) returns (r: Reply)
      modifies this
      ensures (View(), r) == Step(old(View()), now, Auth.Login(email, password, family, refresh))
    {
      if email == "" || password == "" { return InvalidCredentials; }
      var found := Named(View(), email);
      if found.None? { return InvalidCredentials; }
      var uid := found.value;
      var account := users[uid].account.value;
      if account.lockedUntil.Some? && now < account.lockedUntil.value { return TooManyAttempts; }
      if account.password != Lockout.HashOf(password) {
        var failures := account.failed + 1;
        if failures >= Lockout.MAX_FAILURES {
          account := account.(failed := failures, lockedUntil := Some(now + Lockout.LOCK_SECONDS));
        } else {
          account := account.(failed := failures);
        }
        users := users[uid := users[uid].(account := Some(account))];
        return InvalidCredentials;
      }
      users := users[uid := users[uid].(account := Some(account.(failed := 0, lockedUntil := None)))];
      sessions := Sessions.StoreToken(sessions, uid, family, refresh, now);
      return Session(uid, refresh);
    }

    method Refresh(now: nat, token: string, next: string) returns (r: Reply)
      modifies this
      ensures (View(), r) == Step(old(View()), now, Auth.Refresh(token, next))
    {
      if token == "" { return InvalidRefresh; }
      var h := Sha256(token);
      if h !in sessions { return InvalidRefresh; }
      var row := sessions[h];
      if row.revokedAt.Some? { return InvalidRefresh; }
      if row.usedAt.Some? {
        sessions := Sessions.RevokeFamily(sessions, row.family, now);
        return InvalidRefresh;
      }
      if now > row.expiresAt { return InvalidRefresh; }
      sessions := Sessions.MarkUsed(sessions, h, now);
      sessions := Sessions.StoreToken(sessions, row.user, row.family, next, now);
      return Rotated(next);
    }

    method Logout(now: nat, token: string) returns (r: Reply)
      modifies this
      ensures (View(), r) == Step(old(View()), now, Auth.Logout(token))
    {
      if token != "" && Sessions.Live(sessions, token) {
        sessions := Sessions.RevokeFamily(sessions, sessions[Sha256(token)].family, now);
      }
      return NoContent;
    }

    method Guest(now: nat, uid: nat) returns (r: Reply)
      modifies this
      ensures (View(), r) == Step(old(View()), now, Auth.Guest(uid))
    {
      users := users[uid := User(None, true, None)];
      return GuestSession(uid);
    }

    method RequestDeleteOTP(now: nat, uid: nat, code: string, ttl: nat) returns (r: Reply)
      modifies this
      ensures (View(), r) == Step(old(View()), now, Auth.RequestDeleteOTP(uid, code, ttl))
    {
      if uid !in users || users[uid].email.None? { return NotFound; }
      var email := users[uid].email.value;
      if users[uid].isGuest || email == "" { return NotSent; }
      if RecentCode(otps, email, now) { return Sent; }
      otps := otps + [NewOtp(email, code, ttl, now)];
      return Sent;
    }

    method DeleteAccount(now: nat, uid: nat, raw: string) returns (r: Reply)
      modifies this
      ensures (View(), r) == Step(old(View()), now, Auth.DeleteAccount(uid, raw))
    {
      if uid !in users || users[uid].email.None? { return NotFound; }
      var email := users[uid].email.value;
      if !users[uid].isGuest && email != "" {
        if raw == "" { return BadRequest; }
        var i := Latest(otps, email);
        if i < 0 { return InvalidCode; }
        if now > otps[i].expiresAt { return CodeExpired; }
        if otps[i].hash != Bcrypt(Text.Trim(raw)) { return InvalidCode; }
        otps := otps[i := otps[i].(consumedAt := Some(now))];
      }
      sessions := Sessions.RevokeUser(sessions, uid, now);
      emails := emails - {email};
      users := users - {uid};
      return Deleted(uid);
    }
  }
}
