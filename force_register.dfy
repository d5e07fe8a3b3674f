/**
 * The force-register command: an operator creates an account (nickname,
 * password, email) directly, subject to the same email rules as
 * self-registration.  `Evaluate` is the command's decision as a function of
 * the settings, the stored players and the arguments;
 * `ForceRegisterCommand.Execute` is the command itself, running the same
 * checks one after another against a `PlayerDao` and writing at most one
 * record.
 */
module ForceRegister {
  import opened Text
  import RandomEmail

  /** The configuration keys that govern the local part of an email. */
  datatype LocalPartRules = LocalPartRules(
    blockPlusEmails: bool,
    normalizeGmail: bool,
    minEmailLocalLength: int,
    blockRandomEmails: bool)

  /**
   * What the command reads from the plugin's configuration.  The two regular
   * expressions are represented by their full-match predicates.
   */
  datatype Settings = Settings(
    nicknamePattern: string -> bool,
    emailPattern: string -> bool,
    localPartRules: LocalPartRules,
    allowedEmailDomains: seq<string>,
    blockedEmailDomains: seq<string>)

  /** A stored account; the store's key is `lowercaseNickname`. */
  datatype RegisteredPlayer = RegisteredPlayer(
    nickname: string,
    lowercaseNickname: string,
    password: string,
    email: string)

  function NewPlayer(nickname: string, password: string, email: string): RegisteredPlayer
  {
    RegisteredPlayer(nickname, ToLowerCase(nickname), password, email)
  }

  /** Which data-access call, if any, throws an SQLException during the request. */
  datatype SqlFault = NoFault | QueryForEqFails | IdExistsFails | CreateFails

  /**
   * One constructor per message the command sends.  StringIndexOutOfBounds
   * stands for the unchecked exception `substring(0, -1)` throws when an
   * address accepted by the email pattern has no '@'; no message is sent then.
   */
  datatype Outcome =
    | Usage
    | IncorrectNickname
    | InvalidEmail
    | StringIndexOutOfBounds
    | EmailPlusNotAllowed
    | EmailTooShort
    | EmailLooksRandom
    | EmailAlreadyUsed
    | EmailDomainNotAllowed
    | EmailDomainBlocked
    | TakenNickname
    | Successful(nickname: string)
    | NotSuccessful(nickname: string)

  predicate IsGmailDomain(domain: string)
  {
    domain == "gmail.com" || domain == "googlemail.com"
  }

  /** The local part used for the length and randomness checks. */
  function NormalizeLocalPart(normalizeGmail: bool, localPart: string, domain: string): string
  {
    if normalizeGmail && IsGmailDomain(domain) then RemoveAll(localPart, '.') else localPart
  }

  /** Some entry of `domains` equals `domain` ignoring case. */
  predicate AnyEqualsIgnoreCase(domain: string, domains: seq<string>)
  {
    exists d :: d in domains && EqualsIgnoreCase(domain, d)
  }

  /** Some stored record holds exactly this email. */
  predicate EmailStored(players: map<string, RegisteredPlayer>, email: string)
  {
    exists id :: id in players && players[id].email == email
  }

  /** Every record sits under the lower-cased form of its own nickname. */
  ghost predicate KeyedByLowercaseNickname(players: map<string, RegisteredPlayer>)
  {
    forall id :: id in players ==>
      players[id].lowercaseNickname == id && id == ToLowerCase(players[id].nickname)
  }

  /** The checks on the local part, in order: plus sign, minimum length, random look. */
  function LocalPartRejection(rules: LocalPartRules, localPart: string, domain: string): Option<Outcome>
  {
    var normalized := NormalizeLocalPart(rules.normalizeGmail, localPart, domain);
    if rules.blockPlusEmails && '+' in localPart then Some(EmailPlusNotAllowed)
    else if Utf16Length(normalized) < rules.minEmailLocalLength then Some(EmailTooShort)
    else if rules.blockRandomEmails && RandomEmail.LooksRandom(normalized) then Some(EmailLooksRandom)
    else None
  }

  /** The domain policy: the allow-list when it is non-empty, the block-list otherwise. */
  function DomainRejection(s: Settings, domain: string): Option<Outcome>
  {
    if |s.allowedEmailDomains| > 0 then
      if AnyEqualsIgnoreCase(domain, s.allowedEmailDomains) then None else Some(EmailDomainNotAllowed)
    else if AnyEqualsIgnoreCase(domain, s.blockedEmailDomains) then Some(EmailDomainBlocked)
    else None
  }

  /**
   * The steps that consult the store, once the email itself has passed:
   * the email-used lookup, the domain policy, the nickname lookup and the
   * write.  `fault` says which data-access call throws.
   */
  function StoreOutcome(s: Settings, players: map<string, RegisteredPlayer>, nickname: string, email: string, domain: string, fault: SqlFault): Outcome
  {
    var domainRejection := DomainRejection(s, domain);
    if fault == QueryForEqFails then NotSuccessful(nickname)
    else if EmailStored(players, ToLowerCase(email)) then EmailAlreadyUsed
    else if domainRejection.Some? then domainRejection.value
    else if fault == IdExistsFails then NotSuccessful(nickname)
    else if ToLowerCase(nickname) in players then TakenNickname
    else if fault == CreateFails then NotSuccessful(nickname)
    else Successful(nickname)
  }

  /**
   * The command's outcome: the checks in the order the command runs them,
   * the first failing one deciding; a data-access call that is never
   * reached cannot throw.
   */
  function Evaluate(s: Settings, players: map<string, RegisteredPlayer>, args: seq<string>, fault: SqlFault): Outcome
  {
    if |args| != 3 then Usage
    else
      var nickname, email := args[0], args[2];
      if !s.nicknamePattern(nickname) then IncorrectNickname
      else if !s.emailPattern(email) then InvalidEmail
      else
        match SplitAtFirst(email, '@')
        case None => StringIndexOutOfBounds
        case Some((localPart, rawDomain)) =>
          var domain := ToLowerCase(rawDomain);
          var localRejection := LocalPartRejection(s.localPartRules, localPart, domain);
          if localRejection.Some? then localRejection.value
          else StoreOutcome(s, players, nickname, email, domain, fault)
  }

  /** The store after the command: one new record on success, untouched otherwise. */
  function StoreAfter(players: map<string, RegisteredPlayer>, args: seq<string>, outcome: Outcome): map<string, RegisteredPlayer>
  {
    if outcome.Successful? && |args| == 3
    then players[ToLowerCase(args[0]) := NewPlayer(args[0], args[1], args[2])]
    else players
  }

  /** The domain policy: an allow-list, when there is one, replaces the block-list. */
  predicate DomainPermitted(s: Settings, domain: string)
  {
    if |s.allowedEmailDomains| > 0
    then AnyEqualsIgnoreCase(domain, s.allowedEmailDomains)
    else !AnyEqualsIgnoreCase(domain, s.blockedEmailDomains)
  }

  /** Every rule the command enforces, stated as one conjunction, order ignored. */
  predicate Accepted(s: Settings, players: map<string, RegisteredPlayer>, nickname: string, email: string)
  {
    s.nicknamePattern(nickname) && s.emailPattern(email) &&
    match SplitAtFirst(email, '@')
    case None => false
    case Some((localPart, rawDomain)) =>
      var domain := ToLowerCase(rawDomain);
      var rules := s.localPartRules;
      var normalized := NormalizeLocalPart(rules.normalizeGmail, localPart, domain);
      !(rules.blockPlusEmails && '+' in localPart) &&
      Utf16Length(normalized) >= rules.minEmailLocalLength &&
      !(rules.blockRandomEmails && RandomEmail.LooksRandom(normalized)) &&
      !EmailStored(players, ToLowerCase(email)) &&
      DomainPermitted(s, domain) &&
      ToLowerCase(nickname) !in players
  }

  // ---------------------------------------------------------------------
  // The persistence gateway and the command

  datatype SqlResult<T> = Ok(value: T) | SqlException

  /** The player table, keyed by lower-cased nickname. */
  class PlayerDao {
    var players: map<string, RegisteredPlayer>

    /** Every record sits under its own lower-cased nickname. */
    ghost predicate Valid()
      reads this
    {
      KeyedByLowercaseNickname(players)
    }

    constructor ()
      ensures Valid() && players == map[]
    {
      players := map[];
    }

    /** `queryForEq(EMAIL_FIELD, email)`, reduced to whether the resulting list is non-empty. */
    method QueryEmailInUse(email: string, fails: bool) returns (r: SqlResult<bool>)
      ensures r.SqlException? <==> fails
      ensures r.Ok? ==> (r.value <==> exists id :: id in players && players[id].email == email)
    {
      if fails {
        r := SqlException;
      } else {
        r := Ok(exists id | id in players :: players[id].email == email);
      }
    }

    /** `idExists(id)`. */
    method IdExists(id: string, fails: bool) returns (r: SqlResult<bool>)
      ensures r.SqlException? <==> fails
      ensures r.Ok? ==> (r.value <==> id in players)
    {
      if fails {
        r := SqlException;
      } else {
        r := Ok(id in players);
      }
    }

    /** `create(player)`: refused, like a primary-key violation, when the id is already stored. */
    method Create(player: RegisteredPlayer, fails: bool) returns (created: bool)
      requires player.lowercaseNickname == ToLowerCase(player.nickname)
      modifies this
      ensures created <==> !fails && player.lowercaseNickname !in old(players)
      ensures players == if created then old(players)[player.lowercaseNickname := player] else old(players)
    {
      created := !fails && player.lowercaseNickname !in players;
      if created {
        players := players[player.lowercaseNickname := player];
      }
    }
  }

  class ForceRegisterCommand {
    const settings: Settings
    const playerDao: PlayerDao

    constructor (settings: Settings, playerDao: PlayerDao)
      ensures this.settings == settings && this.playerDao == playerDao
    {
      this.settings := settings;
      this.playerDao := playerDao;
    }

    /**
     * Runs the checks in order, returning at the first one that fails; only a
     * request that passes all of them writes, and it writes one record.
     */
    method Execute(args: seq<string>, fault: SqlFault) returns (outcome: Outcome)
      requires playerDao.Valid()
      modifies playerDao
      ensures playerDao.Valid()
      ensures outcome == Evaluate(settings, old(playerDao.players), args, fault)
      ensures playerDao.players == StoreAfter(old(playerDao.players), args, outcome)
    {
      if |args| != 3 {
        return Usage;
      }
      var nickname, password, email := args[0], args[1], args[2];

      if !settings.nicknamePattern(nickname) {
        return IncorrectNickname;
      }
      if !settings.emailPattern(email) {
        return InvalidEmail;
      }

      var parts := SplitAtFirst(email, '@');
      if parts.None? {
        return StringIndexOutOfBounds;
      }
      var (localPart, rawDomain) := parts.value;
      var domain := ToLowerCase(rawDomain);

      var rejection := CheckLocalPart(localPart, domain);
      if rejection.Some? {
        return rejection.value;
      }

      outcome := Register(nickname, password, email, domain, fault);
      assert outcome == Evaluate(settings, old(playerDao.players), args, fault);
      assert playerDao.players == StoreAfter(old(playerDao.players), args, outcome);
    }

    /**
     * The checks on the local part: the plus sign, Gmail normalisation, the
     * minimum length and the random-looking heuristic.
     */
    method CheckLocalPart(localPart: string, domain: string) returns (rejection: Option<Outcome>)
      ensures rejection == LocalPartRejection(settings.localPartRules, localPart, domain)
    {
      var rules := settings.localPartRules;
      if rules.blockPlusEmails && '+' in localPart {
        return Some(EmailPlusNotAllowed);
      }

      var normalizedLocalPart := localPart;
      if rules.normalizeGmail && IsGmailDomain(domain) {
        normalizedLocalPart := RemoveAll(localPart, '.');
      }

      if Utf16Length(normalizedLocalPart) < rules.minEmailLocalLength {
        return Some(EmailTooShort);
      }

      if rules.blockRandomEmails {
        var random := RandomEmail.LooksLikeRandomEmail(normalizedLocalPart);
        if random {
          return Some(EmailLooksRandom);
        }
      }
      return None;
    }

    /**
     * The steps that consult the store, once the email itself has passed:
     * the lookups, the domain policy and the single write.
     */
    method Register(nickname: string, password: string, email: string, domain: string, fault: SqlFault) returns (outcome: Outcome)
      requires playerDao.Valid()
      modifies playerDao
      ensures playerDao.Valid()
      ensures outcome == StoreOutcome(settings, old(playerDao.players), nickname, email, domain, fault)
      ensures playerDao.players ==
        if outcome.Successful?
        then old(playerDao.players)[ToLowerCase(nickname) := NewPlayer(nickname, password, email)]
        else old(playerDao.players)
    {
      var existing := playerDao.QueryEmailInUse(ToLowerCase(email), fault == QueryForEqFails);
      if existing.SqlException? {
        return NotSuccessful(nickname);
      }
      if existing.value {
        return EmailAlreadyUsed;
      }

      if |settings.allowedEmailDomains| > 0 {
        if !AnyEqualsIgnoreCase(domain, settings.allowedEmailDomains) {
          return EmailDomainNotAllowed;
        }
      } else if AnyEqualsIgnoreCase(domain, settings.blockedEmailDomains) {
        return EmailDomainBlocked;
      }

      var lowercaseNickname := ToLowerCase(nickname);
      var taken := playerDao.IdExists(lowercaseNickname, fault == IdExistsFails);
      if taken.SqlException? {
        return NotSuccessful(nickname);
      }
      if taken.value {
        return TakenNickname;
      }

      var player := NewPlayer(nickname, password, email);
      var created := playerDao.Create(player, fault == CreateFails);
      if !created {
        return NotSuccessful(nickname);
      }
      return Successful(nickname);
    }
  }

  // ---------------------------------------------------------------------
  // Properties of the pipeline

  /** The argument count alone decides the usage message. */
  lemma UsageExactlyOnWrongArgumentCount(s: Settings, players: map<string, RegisteredPlayer>, args: seq<string>, fault: SqlFault)
    ensures Evaluate(s, players, args, fault) == Usage <==> |args| != 3
  {
  }

  /** A nickname the pattern rejects is reported as such, whatever the email. */
  lemma BadNicknameReportedFirst(s: Settings, players: map<string, RegisteredPlayer>, args: seq<string>, fault: SqlFault)
    requires |args| == 3 && !s.nicknamePattern(args[0])
    ensures Evaluate(s, players, args, fault) == IncorrectNickname
  {
  }

  /**
   * The ordered checks accept exactly the requests that satisfy every rule,
   * provided no data-access call fails; a success always names the nickname
   * given.
   */
  lemma SuccessIffAccepted(s: Settings, players: map<string, RegisteredPlayer>, args: seq<string>, fault: SqlFault)
    ensures Evaluate(s, players, args, fault).Successful? <==>
      |args| == 3 && fault == NoFault && Accepted(s, players, args[0], args[2])
    ensures Evaluate(s, players, args, fault).Successful? ==>
      Evaluate(s, players, args, fault).nickname == args[0]
  {
  }

  /** With a non-empty allow-list the block-list is never consulted. */
  lemma BlockListIgnoredUnderAllowList(s: Settings, blocked: seq<string>, players: map<string, RegisteredPlayer>, args: seq<string>, fault: SqlFault)
    requires |s.allowedEmailDomains| > 0
    ensures Evaluate(s, players, args, fault) == Evaluate(s.(blockedEmailDomains := blocked), players, args, fault)
    ensures Evaluate(s, players, args, fault) != EmailDomainBlocked
  {
  }

  /**
   * The email-used check compares stored emails, as stored, with the
   * lower-cased request email: it is an exact match against that form.
   */
  lemma EmailAlreadyUsedMeansExactMatch(s: Settings, players: map<string, RegisteredPlayer>, args: seq<string>, fault: SqlFault)
    requires Evaluate(s, players, args, fault) == EmailAlreadyUsed
    ensures |args| == 3 && EmailStored(players, ToLowerCase(args[2]))
  {
  }

  /**
   * A record whose email holds a capital letter never matches the check:
   * a successful registration of such an email does not stop the same
   * email from being registered again under another nickname.
   */
  lemma MixedCaseEmailNotReserved(s: Settings, players: map<string, RegisteredPlayer>, first: seq<string>, second: seq<string>, i: int)
    requires Evaluate(s, players, first, NoFault).Successful?
    requires |second| == 3 && second[2] == first[2]
    requires 0 <= i < |first[2]| && IsAsciiUpper(first[2][i])
    ensures Evaluate(s, StoreAfter(players, first, Successful(first[0])), second, NoFault) != EmailAlreadyUsed
  {
    var email := first[2];
    var after := StoreAfter(players, first, Successful(first[0]));
    var id := ToLowerCase(first[0]);
    assert after == players[id := NewPlayer(first[0], first[1], email)];
    assert email != ToLowerCase(email) by {
      ToLowerCaseAt(email);
    }
    SuccessIffAccepted(s, players, first, NoFault);
    assert !EmailStored(players, ToLowerCase(email)) by {
      if |first| == 3 && Accepted(s, players, first[0], email) {
      }
    }
    assert !EmailStored(after, ToLowerCase(email)) by {
      forall k | k in after
        ensures after[k].email != ToLowerCase(email)
      {
        if k != id {
          assert k in players;
        }
      }
    }
  }

  /**
   * So the same mixed-case email is registered a second time, under any
   * other nickname the pattern accepts and the store does not hold yet.
   */
  lemma MixedCaseEmailRegisteredTwice(s: Settings, players: map<string, RegisteredPlayer>, first: seq<string>, second: seq<string>, i: int)
    requires Evaluate(s, players, first, NoFault).Successful?
    requires |second| == 3 && second[2] == first[2]
    requires 0 <= i < |first[2]| && IsAsciiUpper(first[2][i])
    requires s.nicknamePattern(second[0])
    requires ToLowerCase(second[0]) !in StoreAfter(players, first, Successful(first[0]))
    ensures Evaluate(s, StoreAfter(players, first, Successful(first[0])), second, NoFault) == Successful(second[0])
  {
    MixedCaseEmailNotReserved(s, players, first, second, i);
    SuccessIffAccepted(s, players, first, NoFault);
  }

  /** A successful request names a nickname whose lower-cased form is not yet stored. */
  lemma SuccessMeansFreshNickname(s: Settings, players: map<string, RegisteredPlayer>, args: seq<string>, fault: SqlFault)
    requires Evaluate(s, players, args, fault).Successful?
    ensures |args| == 3 && ToLowerCase(args[0]) !in players
  {
    SuccessIffAccepted(s, players, args, fault);
  }

  /**
   * The command's write keeps every record under its lower-cased nickname,
   * keeps every old record, and adds exactly one on success.
   */
  lemma StoreAfterKeepsKeys(s: Settings, players: map<string, RegisteredPlayer>, args: seq<string>, fault: SqlFault)
    requires KeyedByLowercaseNickname(players)
    ensures var outcome := Evaluate(s, players, args, fault);
      var after := StoreAfter(players, args, outcome);
      KeyedByLowercaseNickname(after) &&
      (forall id :: id in players ==> id in after && after[id] == players[id]) &&
      |after| == |players| + (if outcome.Successful? then 1 else 0)
  {
    var outcome := Evaluate(s, players, args, fault);
    if outcome.Successful? {
      SuccessMeansFreshNickname(s, players, args, fault);
    }
  }

  /** Gmail normalisation deletes every dot, and only then does it change anything. */
  lemma NormalizationRemovesExactlyTheDots(normalizeGmail: bool, localPart: string, domain: string)
    ensures var normalized := NormalizeLocalPart(normalizeGmail, localPart, domain);
      (normalizeGmail && IsGmailDomain(domain) ==>
        '.' !in normalized &&
        forall c :: c != '.' ==> multiset(normalized)[c] == multiset(localPart)[c]) &&
      (normalized == localPart <==> !(normalizeGmail && IsGmailDomain(domain)) || '.' !in localPart)
  {
    RemoveAllKeepsOthers(localPart, '.');
  }

  /** "a.b.c" at gmail.com becomes "abc"; elsewhere it stays. */
  lemma ExampleGmailDots(localPart: string)
    requires localPart == "a.b.c"
    ensures NormalizeLocalPart(true, localPart, "gmail.com") == "abc"
    ensures NormalizeLocalPart(true, localPart, "example.com") == localPart
  {
    assert localPart == "a" + "." + "b" + "." + "c";
    RemoveAllAppend("a" + "." + "b" + ".", "c", '.');
    RemoveAllAppend("a" + "." + "b", ".", '.');
    RemoveAllAppend("a" + ".", "b", '.');
    RemoveAllAppend("a", ".", '.');
  }
}
