/**
 * The two entities that handlers validate and normalise before storing them:
 * users (`Prepare`, `validation`, `format`) and publications (`Preparar`,
 * `validar`, `formatar`). The value types are what is decoded from JSON and
 * copied into and out of the repositories; the classes are the variables that
 * the preparation methods change in place through their pointer receivers.
 */
module Models {
  import opened Wrappers
  import opened GoStrings
  import Security

  /** The stage names a handler passes to `Prepare`. */
  const Registration: string := "cadastro"
  const Edition: string := "edicao"

  const NameRequired: string := "o nome é obrigatório e não pode estar em branco"
  const NickRequired: string := "o nick é obrigatório e não pode estar em branco"
  const EmailRequired: string := "o e-mail é obrigatório e não pode estar em branco"
  const EmailInvalid: string := "o e-mail inserido é inválido"
  const PasswordRequired: string := "o senha é obrigatório e não pode estar em branco"

  const TitleRequired: string := "o título é obrigatório e não pode estar em branco"
  const ContentRequired: string := "o conteúdo é obrigatório e não pode estar em branco"

  /** `models.User` as a value. */
  datatype UserData = UserData(id: nat, name: string, nick: string, email: string, password: string, createdAt: int)

  /** The zero `models.User`, which the repository returns when no row matches. */
  const ZeroUser: UserData := UserData(0, "", "", "", "", 0)

  /** `models.Publication` as a value. */
  datatype PublicationData = PublicationData(
    id: nat, titulo: string, conteudo: string, autorId: nat, autorNick: string, likes: nat, createdAt: int)

  /** The zero `models.Publication`. */
  const ZeroPublication: PublicationData := PublicationData(0, "", "", 0, "", 0, 0)

  /** The body of the password-change request (`models.Password`, whose file is not part of this model). */
  datatype Password = Password(newPassword: string, oldPassword: string)

  /** What a preparation leaves in its receiver, and the error it returns. */
  datatype Prepared<T> = Prepared(value: T, error: Option<string>)

  /** One validation rule: whether it holds, and the message reported when it is the first to fail. */
  datatype Rule = Rule(holds: bool, message: string)

  /** The message of the first rule that fails, if any. */
  function FirstBroken(rules: seq<Rule>): (r: Option<string>)
    ensures r.None? <==> forall i :: 0 <= i < |rules| ==> rules[i].holds
    ensures r.Some? ==> exists i :: 0 <= i < |rules| && !rules[i].holds && r.value == rules[i].message
                                    && forall j :: 0 <= j < i ==> rules[j].holds
  {
    if rules == [] then None
    else if !rules[0].holds then Some(rules[0].message)
    else
      var r := FirstBroken(rules[1..]);
      assert r.Some? ==> exists i :: 1 <= i < |rules| && !rules[i].holds && r.value == rules[i].message
                                     && forall j :: 0 <= j < i ==> rules[j].holds by {
        if r.Some? {
          var i :| 0 <= i < |rules| - 1 && !rules[1..][i].holds && r.value == rules[1..][i].message
                   && forall j :: 0 <= j < i ==> rules[1..][j].holds;
          assert forall j :: 1 <= j < i + 1 ==> rules[j].holds by {
            forall j | 1 <= j < i + 1 ensures rules[j].holds { assert rules[j] == rules[1..][j - 1]; }
          }
        }
      }
      r
  }

  /** The user rules in the order the source checks them. */
  function UserRules(u: UserData, stage: string, isEmail: string -> bool): seq<Rule> {
    [ Rule(u.name != "", NameRequired),
      Rule(u.nick != "", NickRequired),
      Rule(u.email != "", EmailRequired),
      Rule(isEmail(u.email), EmailInvalid),
      Rule(!(stage == Registration && u.password == ""), PasswordRequired) ]
  }

  /**
   * `User.validation`: name, nick and e-mail presence, e-mail format
   * (`checkmail.ValidateFormat`, here `isEmail`), then the password, which only
   * the registration stage requires. Only the first failure is reported.
   */
  function UserValidation(u: UserData, stage: string, isEmail: string -> bool): (err: Option<string>)
    ensures err.None? <==> u.name != "" && u.nick != "" && u.email != "" && isEmail(u.email)
                           && (stage == Registration ==> u.password != "")
  {
    if u.name == "" then Some(NameRequired)
    else if u.nick == "" then Some(NickRequired)
    else if u.email == "" then Some(EmailRequired)
    else if !isEmail(u.email) then Some(EmailInvalid)
    else if stage == Registration && u.password == "" then Some(PasswordRequired)
    else None
  }

  /** `UserValidation` reports exactly the message of the first rule, in the source's order, that fails. */
  lemma ValidationReportsFirstFailure(u: UserData, stage: string, isEmail: string -> bool)
    ensures UserValidation(u, stage, isEmail) == FirstBroken(UserRules(u, stage, isEmail))
  {
    var rules := UserRules(u, stage, isEmail);
    assert FirstBroken(rules[4..]) == FirstBroken([rules[4]]);
    assert FirstBroken(rules[3..]) == if !rules[3].holds then Some(rules[3].message) else FirstBroken(rules[4..]);
    assert FirstBroken(rules[2..]) == if !rules[2].holds then Some(rules[2].message) else FirstBroken(rules[3..]);
    assert FirstBroken(rules[1..]) == if !rules[1].holds then Some(rules[1].message) else FirstBroken(rules[2..]);
  }

  /**
   * `User.format`: trims name, nick and e-mail, and at registration replaces
   * the password by its digest. A failed hash is returned as the error, after
   * the trimming has already happened and with the password left as it was.
   */
  function UserFormatted(u: UserData, stage: string, bcrypt: Security.Bcrypt): (r: Prepared<UserData>)
    ensures r.value.id == u.id && r.value.createdAt == u.createdAt
    ensures r.value.name == TrimSpace(u.name) && r.value.nick == TrimSpace(u.nick) && r.value.email == TrimSpace(u.email)
    ensures stage != Registration ==> r.error.None? && r.value.password == u.password
    ensures stage == Registration && bcrypt.hash(u.password).Ok? ==>
              r.error.None? && r.value.password == bcrypt.hash(u.password).value
    ensures stage == Registration && bcrypt.hash(u.password).Err? ==>
              r.error == Some(bcrypt.hash(u.password).error) && r.value.password == u.password
  {
    var trimmed := u.(name := TrimSpace(u.name), nick := TrimSpace(u.nick), email := TrimSpace(u.email));
    if stage == Registration then
      match bcrypt.hash(u.password)
      case Err(e) => Prepared(trimmed, Some(e))
      case Ok(digest) => Prepared(trimmed.(password := digest), None)
    else
      Prepared(trimmed, None)
  }

  /** `User.Prepare`: formatting runs only when validation passed; a validation error leaves every field as it was. */
  function UserPrepared(u: UserData, stage: string, isEmail: string -> bool, bcrypt: Security.Bcrypt): (r: Prepared<UserData>)
    ensures UserValidation(u, stage, isEmail).Some? ==> r == Prepared(u, UserValidation(u, stage, isEmail))
    ensures UserValidation(u, stage, isEmail).None? ==> r == UserFormatted(u, stage, bcrypt)
  {
    var err := UserValidation(u, stage, isEmail);
    if err.Some? then Prepared(u, err) else UserFormatted(u, stage, bcrypt)
  }

  /** Outside registration the password plays no part in validation: an empty one passes. */
  lemma EditionIgnoresPassword(u: UserData, stage: string, isEmail: string -> bool, password: string)
    requires stage != Registration
    ensures UserValidation(u.(password := password), stage, isEmail) == UserValidation(u, stage, isEmail)
  {
  }

  /**
   * Emptiness is checked before trimming: a name of white space only passes
   * validation and is empty once the user is prepared.
   */
  lemma {:induction false} BlankNamePasses(u: UserData, stage: string, isEmail: string -> bool, bcrypt: Security.Bcrypt)
    requires u.name != "" && forall i :: 0 <= i < |u.name| ==> IsSpace(u.name[i])
    requires u.nick != "" && u.email != "" && isEmail(u.email) && (stage == Registration ==> u.password != "")
    ensures UserValidation(u, stage, isEmail).None?
    ensures UserPrepared(u, stage, isEmail, bcrypt).value.name == ""
  {
    TrimSpaceOfBlank(u.name);
  }

  /** A digest stored at registration verifies against the password that was submitted. */
  lemma RegisteredPasswordVerifies(u: UserData, isEmail: string -> bool, bcrypt: Security.Bcrypt)
    requires bcrypt.RoundTrip()
    requires UserPrepared(u, Registration, isEmail, bcrypt).error.None?
    ensures bcrypt.Matches(UserPrepared(u, Registration, isEmail, bcrypt).value.password, u.password)
  {
  }

  /** `Publication.validar`: the title is checked before the content. */
  function PublicationValidation(p: PublicationData): (err: Option<string>)
    ensures err.None? <==> p.titulo != "" && p.conteudo != ""
    ensures p.titulo == "" ==> err == Some(TitleRequired)
    ensures p.titulo != "" && p.conteudo == "" ==> err == Some(ContentRequired)
  {
    if p.titulo == "" then Some(TitleRequired)
    else if p.conteudo == "" then Some(ContentRequired)
    else None
  }

  /** `Publication.formatar`: only title and content change, each to its trimmed form. */
  function PublicationFormatted(p: PublicationData): (r: PublicationData)
    ensures r.id == p.id && r.autorId == p.autorId && r.autorNick == p.autorNick
            && r.likes == p.likes && r.createdAt == p.createdAt
    ensures r.titulo == TrimSpace(p.titulo) && r.conteudo == TrimSpace(p.conteudo)
  {
    p.(titulo := TrimSpace(p.titulo), conteudo := TrimSpace(p.conteudo))
  }

  /** `Publication.Preparar`: on a validation error nothing is modified. */
  function PublicationPrepared(p: PublicationData): (r: Prepared<PublicationData>)
    ensures r.error.None? <==> p.titulo != "" && p.conteudo != ""
    ensures r.error.Some? ==> r.value == p && r.error == PublicationValidation(p)
    ensures r.error.None? ==> r.value == PublicationFormatted(p)
  {
    var err := PublicationValidation(p);
    if err.Some? then Prepared(p, err) else Prepared(PublicationFormatted(p), None)
  }

  /** Formatting a publication twice is formatting it once. */
  lemma {:induction false} PublicationFormattedIdempotent(p: PublicationData)
    ensures PublicationFormatted(PublicationFormatted(p)) == PublicationFormatted(p)
  {
    TrimSpaceIdempotent(p.titulo);
    TrimSpaceIdempotent(p.conteudo);
  }

  /** A title of white space only passes `validar` and is empty after `formatar`. */
  lemma BlankTitlePasses(p: PublicationData)
    requires p.titulo != "" && forall i :: 0 <= i < |p.titulo| ==> IsSpace(p.titulo[i])
    requires p.conteudo != ""
    ensures PublicationPrepared(p).error.None? && PublicationPrepared(p).value.titulo == ""
  {
    TrimSpaceOfBlank(p.titulo);
  }

  /** A `models.User` variable, prepared in place. */
  class User {
    var id: nat
    var name: string
    var nick: string
    var email: string
    var password: string
    var createdAt: int

    /** The variable holding a decoded value. */
    constructor (u: UserData)
      ensures Data() == u
    {
      id, name, nick, email, password, createdAt := u.id, u.name, u.nick, u.email, u.password, u.createdAt;
    }

    /** The struct value the variable currently holds. */
    function Data(): UserData
      reads this
    {
      UserData(id, name, nick, email, password, createdAt)
    }

    method Prepare(stage: string, isEmail: string -> bool, bcrypt: Security.Bcrypt) returns (err: Option<string>)
      modifies this
      ensures Prepared(Data(), err) == UserPrepared(old(Data()), stage, isEmail, bcrypt)
    {
      err := UserValidation(Data(), stage, isEmail);
      if err.Some? {
        return;
      }
      err := Format(stage, bcrypt);
    }

    method Format(stage: string, bcrypt: Security.Bcrypt) returns (err: Option<string>)
      modifies this
      ensures Prepared(Data(), err) == UserFormatted(old(Data()), stage, bcrypt)
    {
      var trimmedName, trimmedNick, trimmedEmail := TrimSpace(name), TrimSpace(nick), TrimSpace(email);
      var digest := password;
      err := None;
      if stage == Registration {
        var hashed := bcrypt.hash(password);
        if hashed.Err? {
          err := Some(hashed.error);
        } else {
          digest := hashed.value;
        }
      }
      name, nick, email, password := trimmedName, trimmedNick, trimmedEmail, digest;
    }
  }

  /** A `models.Publication` variable, prepared in place. */
  class Publication {
    var id: nat
    var titulo: string
    var conteudo: string
    var autorId: nat
    var autorNick: string
    var likes: nat
    var createdAt: int

    constructor (p: PublicationData)
      ensures Data() == p
    {
      id, titulo, conteudo, autorId, autorNick, likes, createdAt :=
        p.id, p.titulo, p.conteudo, p.autorId, p.autorNick, p.likes, p.createdAt;
    }

    function Data(): PublicationData
      reads this
    {
      PublicationData(id, titulo, conteudo, autorId, autorNick, likes, createdAt)
    }

    method Preparar() returns (err: Option<string>)
      modifies this
      ensures Prepared(Data(), err) == PublicationPrepared(old(Data()))
    {
      err := PublicationValidation(Data());
      if err.Some? {
        return;
      }
      Formatar();
    }

    method Formatar()
      modifies this
      ensures Data() == PublicationFormatted(old(Data()))
    {
      titulo := TrimSpace(titulo);
      conteudo := TrimSpace(conteudo);
    }
  }
}
