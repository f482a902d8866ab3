/** AuthService: signup registers a user and issues a token; signin checks
    a user's credentials and issues a token. */
module Auth {
  import opened Common
  import opened Entities
  import opened Repositories
  import opened JavaText

  /** The claims of the bearer token JwtUtil.createToken signs; the signing
      itself is not modelled. */
  datatype Token = Bearer(userId: int, email: string, role: UserRole)

  const EmailBlank := Error(NullPointer, "Email is null or empty")
  const EmailTaken := Error(InvalidRequest, "이미 존재하는 이메일입니다.")
  const UnknownUser := Error(InvalidRequest, "가입되지 않은 유저입니다.")
  const WrongPassword := Error(Auth, "잘못된 비밀번호입니다.")

  /** PasswordEncoder: a one-way encoding whose internals are a parameter. */
  class PasswordEncoder {
    /** The one-way function behind encode. */
    const oneWay: string -> seq<char>
    /** How many times encode has run: an instrument of the model, so that
        "no hashing happened" can be stated. */
    ghost var encodeCalls: nat

    constructor (oneWay: string -> seq<char>)
      ensures this.oneWay == oneWay && encodeCalls == 0
    {
      this.oneWay := oneWay;
      encodeCalls := 0;
    }

    /** matches: does `encoded` come from encoding `raw`? */
    predicate Matches(raw: string, encoded: Hash)
    {
      encoded == Encoded(oneWay(raw))
    }

    /** encode: an encoding that `Matches` accepts for `raw`. */
    method Encode(raw: string) returns (encoded: Hash)
      modifies this
      ensures Matches(raw, encoded)
      ensures encodeCalls == old(encodeCalls) + 1
    {
      encoded := Encoded(oneWay(raw));
      encodeCalls := encodeCalls + 1;
    }
  }

  class AuthService {
    const userRepository: UserRepository
    const passwordEncoder: PasswordEncoder
    /** UserRole.of: parses a requested role or fails with its own error;
        its body is not modelled. */
    const parseRole: string -> Result<UserRole>

    constructor (userRepository: UserRepository, passwordEncoder: PasswordEncoder,
                 parseRole: string -> Result<UserRole>)
      ensures this.userRepository == userRepository
      ensures this.passwordEncoder == passwordEncoder
      ensures this.parseRole == parseRole
    {
      this.userRepository := userRepository;
      this.passwordEncoder := passwordEncoder;
      this.parseRole := parseRole;
    }

    /** signup. A null or blank email is refused before anything else runs;
        then the password is encoded, the role parsed and a duplicate email
        refused; otherwise exactly one user is stored and a token for it issued.
        A successful signup is one that signin then accepts. */
    method Signup(email: Option<string>, password: string, userRole: string) returns (r: Result<Token>)
      requires userRepository.Valid()
      modifies userRepository, passwordEncoder
      ensures userRepository.Valid()
      ensures email.None? || IsBlank(email.value) ==>
        && r == Err(EmailBlank)
        && passwordEncoder.encodeCalls == old(passwordEncoder.encodeCalls)
        && unchanged(userRepository)
      ensures email.Some? && !IsBlank(email.value) ==>
        passwordEncoder.encodeCalls == old(passwordEncoder.encodeCalls) + 1
      ensures email.Some? && !IsBlank(email.value) && parseRole(userRole).Err? ==>
        r == Err(parseRole(userRole).error) && unchanged(userRepository)
      ensures email.Some? && !IsBlank(email.value) && parseRole(userRole).Ok?
              && (exists u :: u in old(userRepository.users) && u.email == email.value) ==>
        r == Err(EmailTaken) && unchanged(userRepository)
      ensures email.Some? && !IsBlank(email.value) && parseRole(userRole).Ok?
              && (forall u :: u in old(userRepository.users) ==> u.email != email.value) ==>
        var id := old(userRepository.nextId);
        var role := parseRole(userRole).value;
        && userRepository.users == old(userRepository.users) + [User(id, email.value, Some(Encoded(passwordEncoder.oneWay(password))), role)]
        && userRepository.nextId == id + 1
        && r == Ok(Bearer(id, email.value, role))
      ensures r.Ok? ==> email.Some? && Signin(email.value, password) == r
    {
      if email.None? || IsBlank(email.value) {
        return Err(EmailBlank);
      }
      var encodedPassword := passwordEncoder.Encode(password);
      var role := parseRole(userRole);
      if role.Err? {
        return Err(role.error);
      }
      if UserByEmail(userRepository.users, email.value).Some? {
        return Err(EmailTaken);
      }
      ghost var before := userRepository.users;
      var savedUser := userRepository.Save(User(0, email.value, Some(encodedPassword), role.value));
      r := Ok(Bearer(savedUser.id, savedUser.email, role.value));
      assert userRepository.users[|before|] == savedUser;
      ghost var found := UserByEmail(userRepository.users, email.value);
      assert found.value !in before;
    }

    /** signin. An unknown email is refused before any password comparison;
        a known email with a password its stored encoding does not match is
        refused with a different exception; otherwise the token carries the
        stored user's id, email and role. Nothing is written. */
    function Signin(email: string, password: string): (r: Result<Token>)
      requires userRepository.Valid()
      reads userRepository
      ensures (forall u :: u in userRepository.users ==> u.email != email) <==> r == Err(UnknownUser)
      ensures forall u :: u in userRepository.users && u.email == email ==>
        if u.password.Some? && passwordEncoder.Matches(password, u.password.value)
        then r == Ok(Bearer(u.id, u.email, u.role))
        else r == Err(WrongPassword)
    {
      match UserByEmail(userRepository.users, email)
      case None => Err(UnknownUser)
      case Some(user) =>
        if user.password.None? || !passwordEncoder.Matches(password, user.password.value) then
          Err(WrongPassword)
        else
          Ok(Bearer(user.id, user.email, user.role))
    }
  }
}
