# LimboAuth force-register command

A Dafny model of the `/forceregister <nickname> <password> <email>` command of
the LimboAuth email fork. An operator uses it to create an account directly.
The command checks its arguments against a fixed sequence of rules, stops at
the first rule that fails, and on success writes one `RegisteredPlayer` record
keyed by the lower-cased nickname. The rules are:

1. argument count;
2. nickname pattern;
3. email pattern;
4. split at the first `@`;
5. plus sign in the local part;
6. Gmail dot normalisation;
7. minimum local-part length;
8. the "looks random" heuristic;
9. email already used;
10. domain allow-list or block-list;
11. nickname already taken;
12. the write.

The project has three modules:

- `Text` (text.dfy): the few `java.lang.String` operations the command uses, folding ASCII only. These are `toLowerCase`, `equalsIgnoreCase`, `indexOf`, the two `substring` calls, `replace(".", "")` and `replaceAll("[^a-z]", "")`.
- `RandomEmail` (random_email.dfy): `looksLikeRandomEmail`, with two parts:
  - the counting loop, as the method `LooksLikeRandomEmail`;
  - its rule-by-rule specification `LooksRandom`, built on recursive counters (vowels, consonants, the trailing consonant run, the longest consonant run).
  The lemmas beside them pin down what each counter means and what each rule decides.
- `ForceRegister` (force_register.dfy): the command in two forms.
  - `Evaluate` is the decision as a function of the settings, the stored players, the arguments, and which data-access call, if any, throws an `SQLException`.
  - `ForceRegisterCommand.Execute` runs the checks one after another against a `PlayerDao` object whose `players` map it updates in place. It is proved to return `Evaluate`'s outcome and to leave the store as `StoreAfter` says.

The lemmas state the command's promises:

- the usage message depends on the argument count alone;
- the ordered checks accept exactly the requests that satisfy every rule;
- a non-empty allow-list makes the block-list irrelevant;
- every rejection leaves the store unchanged, and a success adds exactly one record under the lower-cased nickname.

Three behaviours of the command are worth knowing:

- **The email-used check is not case-insensitive.** The code queries for records whose stored email equals `email.toLowerCase()` (line 123). The record it then writes stores the email as typed (line 154). Under a database collation that compares strings exactly, an address containing a capital letter therefore never matches an earlier registration of the same address. `MixedCaseEmailNotReserved` proves the check does not fire. `MixedCaseEmailRegisteredTwice` proves the same address is registered again under any other acceptable, unused nickname.
- **A missing `@` throws.** The email pattern is configurable. If it accepts an address without `@`, then `indexOf` gives -1 and `substring(0, -1)` throws `StringIndexOutOfBoundsException`. The command does not catch that exception. The model reports it as the outcome `StringIndexOutOfBounds`.
- **Lengths count UTF-16 units.** `String.length()` (lines 111 and 177) counts UTF-16 code units, so a character outside the Basic Multilingual Plane counts twice. The model measures those lengths with `Utf16Length`; `ExampleSupplementaryCharacters` shows three such characters classified random.

## Model

| member | source | states |
|---|---|---|
| RandomEmail.LooksLikeRandomEmail | src/main/java/net/elytrium/limboauth/command/ForceRegisterCommand.java:173-218 | The one-pass counting loop returns exactly the rule-by-rule decision `LooksRandom`. Its invariants give the loop's counters their meaning: vowels, consonants, the current run and the maximum run of the letters seen so far. |
| RandomEmail.CountsPartition | src/main/java/net/elytrium/limboauth/command/ForceRegisterCommand.java:185-200 | Every letter is counted as exactly one of vowel and consonant (`vowels + consonants == |letters|`). Neither the current run nor the longest run of consonants exceeds the consonant count. |
| RandomEmail.TrailingRunIsRun | src/main/java/net/elytrium/limboauth/command/ForceRegisterCommand.java:194-197 | The value of `currentConsonants` is the length of a block of consonants that ends the letters seen so far. |
| RandomEmail.TrailingRunCovers | src/main/java/net/elytrium/limboauth/command/ForceRegisterCommand.java:194-197 | A block of k consonants at the end makes `currentConsonants` at least k, so it is the longest such block. |
| RandomEmail.LongestRunIsRun | src/main/java/net/elytrium/limboauth/command/ForceRegisterCommand.java:187-198 | Some block of consecutive consonants attains `maxConsecutiveConsonants`. |
| RandomEmail.LongestRunIsMaximal | src/main/java/net/elytrium/limboauth/command/ForceRegisterCommand.java:187-198 | No block of consecutive consonants is longer than `maxConsecutiveConsonants`. |
| RandomEmail.NoVowelsOneRun | src/main/java/net/elytrium/limboauth/command/ForceRegisterCommand.java:191-200 | Letters without a vowel form a single consonant run as long as the letters themselves. |
| RandomEmail.AllVowelsNoConsonants | src/main/java/net/elytrium/limboauth/command/ForceRegisterCommand.java:191-200 | Letters that are all vowels yield a consonant count of zero. |
| RandomEmail.FewLettersLongLocalPartIsRandom | src/main/java/net/elytrium/limboauth/command/ForceRegisterCommand.java:174-179 | Fewer than two letters a-z in a local part longer than four characters: classified random. |
| RandomEmail.NoLettersShortLocalPartIsNotRandom | src/main/java/net/elytrium/limboauth/command/ForceRegisterCommand.java:177-183 | No letters a-z in a local part of at most four characters: classified not random. |
| RandomEmail.FiveConsonantsInARowIsRandom | src/main/java/net/elytrium/limboauth/command/ForceRegisterCommand.java:185-204 | Any five consecutive consonants among the letters, wherever they stand, make the local part random. |
| RandomEmail.ConsonantHeavyIsRandom | src/main/java/net/elytrium/limboauth/command/ForceRegisterCommand.java:206-211 | At least six letters, at least one vowel and more than four consonants per vowel: random. |
| RandomEmail.NoVowelRuleSubsumed | src/main/java/net/elytrium/limboauth/command/ForceRegisterCommand.java:213-215 | No vowels and at least five letters already means a consonant run of at least five. The last rule therefore never changes the result. |
| RandomEmail.LooksRandomCharacterization | src/main/java/net/elytrium/limboauth/command/ForceRegisterCommand.java:173-218 | The classifier, in both directions, is one disjunction of three conditions: few letters in a long local part, a run of five consonants, or the consonant ratio. |
| RandomEmail.QuotientAboveFour | src/main/java/net/elytrium/limboauth/command/ForceRegisterCommand.java:207-208 | For a positive divisor, a quotient above 4.0 is the same as the dividend exceeding four times the divisor. |
| RandomEmail.RatioAsInteger | src/main/java/net/elytrium/limboauth/command/ForceRegisterCommand.java:206-211 | With at least one vowel, the ratio test `consonants / vowels > 4.0` holds exactly when `consonants > 4 * vowels`. |
| RandomEmail.LettersOfLowercase | src/main/java/net/elytrium/limboauth/command/ForceRegisterCommand.java:174-175 | Lower-casing and letter filtering leave a local part made of the letters a-z unchanged. |
| RandomEmail.LettersOfNonLetters | src/main/java/net/elytrium/limboauth/command/ForceRegisterCommand.java:174-175 | A local part without any ASCII letter has no letters to classify. |
| RandomEmail.ExampleEmpty | src/main/java/net/elytrium/limboauth/command/ForceRegisterCommand.java:181-183 | The empty local part is not random. |
| RandomEmail.ExampleTwoConsonants | src/main/java/net/elytrium/limboauth/command/ForceRegisterCommand.java:202-217 | "bc" is not random: two letters, too few for any rule. |
| RandomEmail.ExampleFiveDigits | src/main/java/net/elytrium/limboauth/command/ForceRegisterCommand.java:177-179 | "12345" is random: no letters in a five-character local part. |
| RandomEmail.ExampleFiveConsonants | src/main/java/net/elytrium/limboauth/command/ForceRegisterCommand.java:202-204 | "bcdfg" is random by the consonant-run rule. |
| RandomEmail.ExampleSixConsonants | src/main/java/net/elytrium/limboauth/command/ForceRegisterCommand.java:202-204 | "xyzxyz" is one run of six consonants, since `y` is not a vowel, and so it is random. |
| RandomEmail.ExampleSupplementaryCharacters | src/main/java/net/elytrium/limboauth/command/ForceRegisterCommand.java:174-179 | Three characters outside the Basic Multilingual Plane are six UTF-16 units long and contain no letters, so the first rule classifies them random. |
| RandomEmail.ExampleAllVowels | src/main/java/net/elytrium/limboauth/command/ForceRegisterCommand.java:206-217 | "aeiou" is not random: no consonants and no rule fires. |
| Text.ToLowerCase | src/main/java/net/elytrium/limboauth/command/ForceRegisterCommand.java:95 | Lower-casing keeps the length. |
| Text.ToLowerCaseAt | src/main/java/net/elytrium/limboauth/command/ForceRegisterCommand.java:95 | Lower-casing works character by character and leaves no capital A-Z behind. |
| Text.IndexOf | src/main/java/net/elytrium/limboauth/command/ForceRegisterCommand.java:93 | `indexOf('@')` is -1 exactly when there is no `@`. Otherwise it is the position of the first `@`. |
| Text.SplitAtFirst | src/main/java/net/elytrium/limboauth/command/ForceRegisterCommand.java:93-95 | The split fails exactly when the address has no `@`. |
| Text.SplitAtFirstRoundTrip | src/main/java/net/elytrium/limboauth/command/ForceRegisterCommand.java:93-95 | Local part, `@` and domain part joined give back the address, and the local part contains no `@`. |
| Text.RemoveAll | src/main/java/net/elytrium/limboauth/command/ForceRegisterCommand.java:107 | `replace(".", "")` leaves no dot and never lengthens the string. |
| Text.RemoveAllKeepsOthers | src/main/java/net/elytrium/limboauth/command/ForceRegisterCommand.java:107 | Every other character survives as often as it occurred. A string without a dot is unchanged. |
| Text.RemoveAllAppend | src/main/java/net/elytrium/limboauth/command/ForceRegisterCommand.java:107 | Deleting dots commutes with concatenation, so the surviving characters keep their order. |
| Text.LettersOnly | src/main/java/net/elytrium/limboauth/command/ForceRegisterCommand.java:175 | Filtering never lengthens the string. |
| Text.LettersOnlyKeepsLetters | src/main/java/net/elytrium/limboauth/command/ForceRegisterCommand.java:175 | `replaceAll("[^a-z]", "")` keeps only letters a-z, and every one of them as often as it occurs. |
| Text.LettersOnlyExtremes | src/main/java/net/elytrium/limboauth/command/ForceRegisterCommand.java:175 | All-letter input is unchanged; input without letters becomes empty. |
| Text.LettersOnlyAppend | src/main/java/net/elytrium/limboauth/command/ForceRegisterCommand.java:175 | Filtering commutes with concatenation, so the surviving letters keep their order. |
| Text.EqualsIgnoreCase | src/main/java/net/elytrium/limboauth/command/ForceRegisterCommand.java:131-132 | `equalsIgnoreCase`: equality of the ASCII-folded strings. Its partner is `EqualsIgnoreCasePointwise`. |
| Text.EqualsIgnoreCasePointwise | src/main/java/net/elytrium/limboauth/command/ForceRegisterCommand.java:131-132 | Two strings are equal ignoring case exactly when they have the same length and every pair of characters is equal once folded. |
| Text.Utf16Length | src/main/java/net/elytrium/limboauth/command/ForceRegisterCommand.java:111 | `length()` lies between the number of characters and twice that number. |
| Text.Utf16LengthOfBmp | src/main/java/net/elytrium/limboauth/command/ForceRegisterCommand.java:177 | For characters of the Basic Multilingual Plane, `length()` is the number of characters. |
| RandomEmail.IsVowel | src/main/java/net/elytrium/limboauth/command/ForceRegisterCommand.java:189-192 | Membership of `"aeiou"`; every other letter counts as a consonant. |
| RandomEmail.Letters | src/main/java/net/elytrium/limboauth/command/ForceRegisterCommand.java:174-175 | The letters the classifier sees: the local part lower-cased, then filtered to a-z. `LettersOfLowercase` and `LettersOfNonLetters` state its two extremes. |
| RandomEmail.LooksRandom | src/main/java/net/elytrium/limboauth/command/ForceRegisterCommand.java:173-218 | The classifier's rules in source order, the first that applies deciding. `LooksLikeRandomEmail` is proved equal to it and `LooksRandomCharacterization` states it order-free. |
| ForceRegister.NewPlayer | src/main/java/net/elytrium/limboauth/command/ForceRegisterCommand.java:152-154 | The record written: raw nickname, password and email, with the lower-cased nickname as its id. `StoreAfterKeepsKeys` states the key invariant it keeps. |
| ForceRegister.NormalizeLocalPart | src/main/java/net/elytrium/limboauth/command/ForceRegisterCommand.java:103-108 | Dots removed exactly when normalisation is on and the domain is gmail.com or googlemail.com. `NormalizationRemovesExactlyTheDots` states the result. |
| ForceRegister.AnyEqualsIgnoreCase | src/main/java/net/elytrium/limboauth/command/ForceRegisterCommand.java:131-132 | Some listed domain equals the domain ignoring case. |
| ForceRegister.EmailStored | src/main/java/net/elytrium/limboauth/command/ForceRegisterCommand.java:123-124 | Some stored record holds exactly this email, as `queryForEq` on the email column finds. |
| ForceRegister.LocalPartRejection | src/main/java/net/elytrium/limboauth/command/ForceRegisterCommand.java:97-120 | The first failing local-part check: plus sign, then length of the normalised local part, then the heuristic. `CheckLocalPart` is proved equal to it. |
| ForceRegister.DomainRejection | src/main/java/net/elytrium/limboauth/command/ForceRegisterCommand.java:129-144 | The allow-list alone when it is non-empty, otherwise the block-list. `BlockListIgnoredUnderAllowList` states the consequence. |
| ForceRegister.StoreOutcome | src/main/java/net/elytrium/limboauth/command/ForceRegisterCommand.java:122-160 | Email lookup, domain policy, nickname lookup and write in source order, with an SQL error at any reached call giving `NotSuccessful`. `Register` is proved equal to it. |
| ForceRegister.Evaluate | src/main/java/net/elytrium/limboauth/command/ForceRegisterCommand.java:74-165 | The whole command as one decision, its checks in source order. `Execute` is proved equal to it and `SuccessIffAccepted` states it order-free. |
| ForceRegister.ForceRegisterCommand.Execute | src/main/java/net/elytrium/limboauth/command/ForceRegisterCommand.java:74-165 | The command's outcome is `Evaluate` of the old store. The new store is the old one plus the new record on success, and unchanged on every other outcome. Every record stays keyed by its own lower-cased nickname (`PlayerDao.Valid`). |
| ForceRegister.ForceRegisterCommand.CheckLocalPart | src/main/java/net/elytrium/limboauth/command/ForceRegisterCommand.java:97-120 | The plus check, Gmail normalisation, the length check and the heuristic give exactly `LocalPartRejection`. |
| ForceRegister.ForceRegisterCommand.Register | src/main/java/net/elytrium/limboauth/command/ForceRegisterCommand.java:122-160 | The store-consulting steps give `StoreOutcome`. Only success writes, and it writes a record for the raw nickname, password and email under the lower-cased nickname. |
| ForceRegister.PlayerDao.QueryEmailInUse | src/main/java/net/elytrium/limboauth/command/ForceRegisterCommand.java:123-124 | The lookup throws exactly when told to. Otherwise it reports whether some stored email equals the given string exactly. |
| ForceRegister.PlayerDao.IdExists | src/main/java/net/elytrium/limboauth/command/ForceRegisterCommand.java:147 | The lookup throws exactly when told to. Otherwise it reports membership of the id. |
| ForceRegister.PlayerDao.Create | src/main/java/net/elytrium/limboauth/command/ForceRegisterCommand.java:155 | The record is written under its lowercaseNickname exactly when the call does not throw and the id is free. Otherwise nothing changes. |
| ForceRegister.UsageExactlyOnWrongArgumentCount | src/main/java/net/elytrium/limboauth/command/ForceRegisterCommand.java:75-164 | The usage message comes exactly when the argument count is not 3. |
| ForceRegister.BadNicknameReportedFirst | src/main/java/net/elytrium/limboauth/command/ForceRegisterCommand.java:82-85 | A nickname the pattern rejects is reported, whatever the email and the store. |
| ForceRegister.SuccessIffAccepted | src/main/java/net/elytrium/limboauth/command/ForceRegisterCommand.java:74-165 | Success holds exactly when there are three arguments, no SQL error and every rule holds (order ignored). A success names the nickname given. |
| ForceRegister.BlockListIgnoredUnderAllowList | src/main/java/net/elytrium/limboauth/command/ForceRegisterCommand.java:130-144 | With a non-empty allow-list the outcome is independent of the block-list and is never "domain blocked". |
| ForceRegister.EmailAlreadyUsedMeansExactMatch | src/main/java/net/elytrium/limboauth/command/ForceRegisterCommand.java:122-127 | "Email already used" means some stored email equals the lower-cased request email exactly. |
| ForceRegister.MixedCaseEmailRegisteredTwice | src/main/java/net/elytrium/limboauth/command/ForceRegisterCommand.java:122-157 | After a successful registration of an email containing a capital letter, a second request with the same email succeeds under any nickname the pattern accepts that is not stored yet. |
| ForceRegister.MixedCaseEmailNotReserved | src/main/java/net/elytrium/limboauth/command/ForceRegisterCommand.java:122-155 | After a successful registration of an email containing a capital letter, the same email sent again is not reported as already used. |
| ForceRegister.SuccessMeansFreshNickname | src/main/java/net/elytrium/limboauth/command/ForceRegisterCommand.java:146-157 | A successful request names a nickname whose lower-cased form is not yet stored. |
| ForceRegister.StoreAfterKeepsKeys | src/main/java/net/elytrium/limboauth/command/ForceRegisterCommand.java:146-157 | Every record stays under its lower-cased nickname and every old record is kept unchanged. The store grows by exactly one record on success and by none otherwise. |
| ForceRegister.NormalizationRemovesExactlyTheDots | src/main/java/net/elytrium/limboauth/command/ForceRegisterCommand.java:103-108 | When normalisation applies (enabled, and the domain is gmail.com or googlemail.com), the local part loses every dot and nothing else. The result equals the local part exactly when normalisation does not apply or there was no dot. |
| ForceRegister.ExampleGmailDots | src/main/java/net/elytrium/limboauth/command/ForceRegisterCommand.java:103-108 | "a.b.c" becomes "abc" at gmail.com and stays as it is at example.com. |

## Left out

- Regular expressions: the nickname and email patterns are configuration. They are represented by their full-match predicates (`string -> bool`), not by regex semantics.
- Messages: the serializer, `MessageFormat` and `CommandSource.sendMessage` are not modelled. The outcome names the message that would be sent.
- `hasPermission` (lines 167-171) delegates to the permission configuration and is not modelled.
- Exceptions:
  - An `SQLException` from one of the three data-access calls is selected by the `SqlFault` parameter. It gives `NotSuccessful(nickname)` with the store unchanged.
  - The `SQLRuntimeException` rethrown afterwards is not modelled.
- ORMLite is not modelled:
  - The player table is a map keyed by lower-cased nickname.
  - `queryForEq` is reduced to whether its result list is non-empty, and its comparison is exact string equality. A database whose collation compares case-insensitively would behave differently.
- Password hashing: `RegisteredPlayer.setPassword` hashes the password, but that class is not part of this model. The record stores the password as passed.
- Case folding and locales: `toLowerCase` and `equalsIgnoreCase` fold ASCII A-Z only. Locale-specific and non-ASCII Unicode case mappings are not modelled.
- RandomEmail.LooksLikeRandomEmail: the `double` ratio test is stated as the integer comparison `consonants > 4 * vowels`. `RatioAsInteger` shows the two agree over the reals. Floating-point rounding of the quotient is not modelled.
- Concurrency: two commands racing between `idExists` and `create` are not modelled. Each command runs alone against the store.
- Method layout: the one Java method `execute` is split into `Execute`, `CheckLocalPart` and `Register`. The checks run in the same order.
