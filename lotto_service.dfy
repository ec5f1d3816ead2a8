/**
 * The service of src/lotto-service.ts: resolves the configured credentials, signs in to the lottery
 * site once per process, range-checks requests before anything reaches the site, and turns every
 * failure into a `{success: false, message}` result instead of throwing.
 *
 * The browser-driving collaborator is `LottoClient`: it records every request it receives, and its
 * answers are whatever its `replies` field holds, so the contracts hold for every possible behaviour.
 */
module LottoService {
  import opened Wrappers
  import opened Text
  import opened CryptoUtils

  // ---------------------------------------------------------------- configuration and credentials

  /** `MCPConfig`: simple mode in `credentials`, advanced mode in the other three fields; all optional. */
  datatype MCPConfig = MCPConfig(
    credentials: Option<string>,
    encryptedId: Option<string>,
    encryptedPassword: Option<string>,
    secretKey: Option<string>)

  /** JavaScript truthiness of an optional string: present and not empty. */
  predicate Truthy(s: Option<string>) { s.Some? && s.value != [] }

  const SimpleModeFailure: string := "간단 인코딩 계정 정보 디코딩에 실패했습니다: "
  const AdvancedModeFailure: string := "고급 암호화 계정 정보 복호화에 실패했습니다: "
  const NotConfigured: string := "계정 정보가 설정되지 않았습니다. npm run encrypt-credentials 명령을 실행하여 계정을 설정해주세요."

  /**
   * `getCredentials`: simple mode when `credentials` is set, otherwise advanced mode when both encrypted
   * fields are set (with the optional key), otherwise an error; a decoding failure names the mode.
   */
  function GetCredentials(config: MCPConfig): (r: Result<DecryptedCredentials, string>)
    ensures Truthy(config.credentials) ==>
      && (r.Ok? <==> DecodeCredentialsSimple(config.credentials.value).Ok?)
      && (r.Ok? ==> r.value == DecodeCredentialsSimple(config.credentials.value).value)
      && (r.Err? ==> r.error == SimpleModeFailure + DecodeCredentialsSimple(config.credentials.value).error)
      && (r.Err? ==> SimpleModeFailure + SimpleDecodeFailure <= r.error)
    ensures !Truthy(config.credentials) && Truthy(config.encryptedId) && Truthy(config.encryptedPassword) ==>
      && (r.Ok? <==> DecryptCredentials(config.encryptedId.value, config.encryptedPassword.value, config.secretKey).Ok?)
      && (r.Ok? ==> r.value == DecryptCredentials(config.encryptedId.value, config.encryptedPassword.value, config.secretKey).value)
      && (r.Err? ==> r.error == AdvancedModeFailure + DecryptCredentials(config.encryptedId.value, config.encryptedPassword.value, config.secretKey).error)
      && (r.Err? ==> AdvancedModeFailure + DecryptFailure <= r.error)
    ensures !Truthy(config.credentials) && !(Truthy(config.encryptedId) && Truthy(config.encryptedPassword)) ==>
      r == Err(NotConfigured)
  {
    if Truthy(config.credentials) then
      match DecodeCredentialsSimple(config.credentials.value)
      case Ok(c) => Ok(c)
      case Err(cause) => Err(SimpleModeFailure + cause)
    else if Truthy(config.encryptedId) && Truthy(config.encryptedPassword) then
      match DecryptCredentials(config.encryptedId.value, config.encryptedPassword.value, config.secretKey)
      case Ok(c) => Ok(c)
      case Err(cause) => Err(AdvancedModeFailure + cause)
    else Err(NotConfigured)
  }

  /** Simple mode wins: once `credentials` is set, the advanced fields make no difference, whatever they hold. */
  lemma SimpleModeIgnoresAdvanced(config: MCPConfig, encryptedId: Option<string>, encryptedPassword: Option<string>, secretKey: Option<string>)
    requires Truthy(config.credentials)
    ensures GetCredentials(config) == GetCredentials(MCPConfig(config.credentials, encryptedId, encryptedPassword, secretKey))
  {
  }

  /**
   * Resolved credentials have a non-empty id and a non-empty password, in either mode. Advanced mode
   * checks nothing itself: this rests on the strict Base64 decoder, under which a non-empty ciphertext
   * never decrypts to empty text.
   */
  lemma ResolvedCredentialsNonEmpty(config: MCPConfig)
    requires GetCredentials(config).Ok?
    ensures GetCredentials(config).value.id != [] && GetCredentials(config).value.password != []
  {
    if !Truthy(config.credentials) {
      var key := config.secretKey;
      DecryptedNonEmpty(config.encryptedId.value, key);
      DecryptedNonEmpty(config.encryptedPassword.value, key);
    }
  }

  /** Credentials stored in simple mode resolve to themselves. */
  lemma SimpleConfigResolves(id: string, password: string, rest: MCPConfig)
    requires id != [] && password != [] && CommaFree(id) && CommaFree(password)
    ensures GetCredentials(MCPConfig(Some(EncodeCredentialsSimple(id, password)), rest.encryptedId, rest.encryptedPassword, rest.secretKey))
         == Ok(DecryptedCredentials(id, password))
  {
    SimpleRoundTrip(id, password);
  }

  /** Credentials stored in advanced mode resolve to themselves, with or without a key. */
  lemma AdvancedConfigResolves(id: string, password: string, secretKey: Option<string>)
    requires id != [] && password != []
    ensures var e := EncryptCredentials(id, password, secretKey);
      GetCredentials(MCPConfig(None, Some(e.encryptedId), Some(e.encryptedPassword), secretKey))
        == Ok(DecryptedCredentials(id, password))
  {
  }

  // ---------------------------------------------------------------- the collaborator

  const UnknownError: string := "알 수 없는 오류"

  /** A value the collaborator throws: an `Error` with its message, or something else. */
  datatype Fault = Error(message: string) | NonError

  /** The text `error instanceof Error ? error.message : '알 수 없는 오류'` puts in a message. */
  function Cause(f: Fault): (r: string)
  {
    match f
    case Error(m) => m
    case NonError => UnknownError
  }

  /** One entry of the collaborator's check answer; either field may be missing. */
  datatype CheckEntry = CheckEntry(rank: Option<int>, matchedNumbers: Option<seq<int>>)

  /** What the collaborator does when asked: `None` for a call that returns normally, a fault for one that throws. */
  datatype Replies = Replies(
    signIn: Option<Fault>,
    purchase: Result<seq<seq<int>>, Fault>,
    check: Result<seq<CheckEntry>, Fault>,
    destroy: Option<Fault>,
    lastRound: int)

  /** A request the service makes of the collaborator. */
  datatype Request =
    | SignInRequest(id: string, password: string)
    | PurchaseRequest(count: int)
    | CheckRequest(numbers: seq<seq<int>>, round: int)
    | DestroyRequest

  /** The lottery site automation (`signIn`, `purchase`, `check`, `destroy`) and the `getLastLottoRound` oracle. */
  class LottoClient {
    var replies: Replies
    var requests: seq<Request>

    constructor(replies: Replies)
      ensures this.replies == replies && requests == []
    {
      this.replies := replies;
      requests := [];
    }

    method SignIn(id: string, password: string) returns (fault: Option<Fault>)
      modifies this`requests
      ensures requests == old(requests) + [SignInRequest(id, password)]
      ensures fault == replies.signIn
    {
      requests := requests + [SignInRequest(id, password)];
      fault := replies.signIn;
    }

    method Purchase(count: int) returns (r: Result<seq<seq<int>>, Fault>)
      modifies this`requests
      ensures requests == old(requests) + [PurchaseRequest(count)]
      ensures r == replies.purchase
    {
      requests := requests + [PurchaseRequest(count)];
      r := replies.purchase;
    }

    method Check(numbers: seq<seq<int>>, round: int) returns (r: Result<seq<CheckEntry>, Fault>)
      modifies this`requests
      ensures requests == old(requests) + [CheckRequest(numbers, round)]
      ensures r == replies.check
    {
      requests := requests + [CheckRequest(numbers, round)];
      r := replies.check;
    }

    method Destroy() returns (fault: Option<Fault>)
      modifies this`requests
      ensures requests == old(requests) + [DestroyRequest]
      ensures fault == replies.destroy
    {
      requests := requests + [DestroyRequest];
      fault := replies.destroy;
    }

    /** `getLastLottoRound()`: the current round; asking for it sends nothing to the site. */
    method LastRound() returns (round: int)
      ensures round == replies.lastRound
    {
      round := replies.lastRound;
    }
  }

  /** How many sign-in requests a sequence of requests holds. */
  function SignInCount(rs: seq<Request>): (n: nat)
    decreases |rs|
  {
    if rs == [] then 0 else (if rs[0].SignInRequest? then 1 else 0) + SignInCount(rs[1..])
  }

  lemma {:induction false} SignInCountAppend(a: seq<Request>, b: seq<Request>)
    ensures SignInCount(a + b) == SignInCount(a) + SignInCount(b)
    decreases |a|
  {
    if a != [] {
      assert (a + b)[1..] == a[1..] + b;
      SignInCountAppend(a[1..], b);
    } else {
      assert a + b == b;
    }
  }

  // ---------------------------------------------------------------- purchase

  datatype PurchaseResult = PurchaseResult(success: bool, numbers: Option<seq<seq<int>>>, message: string)

  const CountRangeMessage: string := "구매 개수는 1~5개 사이여야 합니다."
  const PurchaseFailure: string := "구매 실패: "
  const PurchasedSuffix: string := "게임을 성공적으로 구매했습니다."

  function PurchaseFailed(cause: string): (r: PurchaseResult)
  {
    PurchaseResult(false, None, PurchaseFailure + cause)
  }

  /** The effect of one `purchaseLotto` call: its result, the sign-in flag afterwards, and the requests it made. */
  datatype PurchaseOutcome = PurchaseOutcome(result: PurchaseResult, signedIn: bool, requests: seq<Request>)

  /** `purchaseLotto(count)` when the flag is `signedIn` and the collaborator answers with `replies`. */
  function PurchaseStep(config: MCPConfig, signedIn: bool, count: int, replies: Replies): (o: PurchaseOutcome)
    // the range check comes first and touches nothing
    ensures (count < 1 || count > 5) ==>
      o == PurchaseOutcome(PurchaseResult(false, None, CountRangeMessage), signedIn, [])
    // sign-in is requested exactly when not yet signed in and credentials resolve, and with those credentials
    ensures SignInCount(o.requests) == (if !signedIn && 1 <= count <= 5 && GetCredentials(config).Ok? then 1 else 0)
    ensures forall r :: r in o.requests && r.SignInRequest? ==> GetCredentials(config) == Ok(DecryptedCredentials(r.id, r.password))
    // nothing reaches the site without credentials; otherwise the sign-in, when needed, comes first, and
    // exactly one purchase request follows unless that sign-in failed
    ensures GetCredentials(config).Err? ==> o.requests == []
    ensures 1 <= count <= 5 && GetCredentials(config).Ok? ==>
      var c := GetCredentials(config).value;
      o.requests == (if signedIn then [] else [SignInRequest(c.id, c.password)])
        + (if signedIn || replies.signIn.None? then [PurchaseRequest(count)] else [])
    // the flag becomes true only through a sign-in that succeeded
    ensures o.signedIn == (signedIn || (SignInCount(o.requests) == 1 && replies.signIn.None?))
    // success needs every step to succeed, and returns the collaborator's numbers
    ensures o.result.success <==>
      1 <= count <= 5 && GetCredentials(config).Ok? && (signedIn || replies.signIn.None?) && replies.purchase.Ok?
    ensures o.result.success ==>
      && o.result.numbers == Some(replies.purchase.value)
      && o.result.message == IntToString(count) + PurchasedSuffix
      && o.requests != [] && o.requests[|o.requests| - 1] == PurchaseRequest(count)
    ensures !o.result.success ==> o.result.numbers == None
    ensures !o.result.success && 1 <= count <= 5 ==> PurchaseFailure <= o.result.message
    // a failure names its cause: the credential error, the sign-in fault or the purchase fault
    ensures 1 <= count <= 5 && GetCredentials(config).Err? ==>
      o.result.message == PurchaseFailure + GetCredentials(config).error
    ensures 1 <= count <= 5 && GetCredentials(config).Ok? && !signedIn && replies.signIn.Some? ==>
      o.result.message == PurchaseFailure + Cause(replies.signIn.value)
    ensures 1 <= count <= 5 && GetCredentials(config).Ok? && (signedIn || replies.signIn.None?) && replies.purchase.Err? ==>
      o.result.message == PurchaseFailure + Cause(replies.purchase.error)
  {
    if count < 1 || count > 5 then
      PurchaseOutcome(PurchaseResult(false, None, CountRangeMessage), signedIn, [])
    else
      match GetCredentials(config)
      case Err(cause) => PurchaseOutcome(PurchaseFailed(cause), signedIn, [])
      case Ok(c) =>
        var signIn := if signedIn then [] else [SignInRequest(c.id, c.password)];
        if !signedIn && replies.signIn.Some? then
          PurchaseOutcome(PurchaseFailed(Cause(replies.signIn.value)), false, signIn)
        else
          SignInCountAppend(signIn, [PurchaseRequest(count)]);
          match replies.purchase
          case Err(f) => PurchaseOutcome(PurchaseFailed(Cause(f)), true, signIn + [PurchaseRequest(count)])
          case Ok(numbers) =>
            PurchaseOutcome(PurchaseResult(true, Some(numbers), IntToString(count) + PurchasedSuffix), true, signIn + [PurchaseRequest(count)])
  }

  /** Starting signed out, a successful purchase followed by any other purchase signs in exactly once. */
  lemma TwoPurchasesSignInOnce(config: MCPConfig, count1: int, replies1: Replies, count2: int, replies2: Replies)
    requires PurchaseStep(config, false, count1, replies1).result.success
    ensures var first := PurchaseStep(config, false, count1, replies1);
      var second := PurchaseStep(config, first.signedIn, count2, replies2);
      SignInCount(first.requests + second.requests) == 1
  {
    var first := PurchaseStep(config, false, count1, replies1);
    var second := PurchaseStep(config, first.signedIn, count2, replies2);
    SignInCountAppend(first.requests, second.requests);
  }

  /** A sign-in that fails leaves the flag down, so the next purchase in range asks to sign in again. */
  lemma FailedSignInRetried(config: MCPConfig, count1: int, replies1: Replies, count2: int, replies2: Replies)
    requires 1 <= count1 <= 5 && 1 <= count2 <= 5 && GetCredentials(config).Ok?
    requires replies1.signIn.Some?
    ensures var first := PurchaseStep(config, false, count1, replies1);
      && !first.signedIn && !first.result.success
      && SignInCount(PurchaseStep(config, first.signedIn, count2, replies2).requests) == 1
  {
  }

  // ---------------------------------------------------------------- winning check

  datatype WinningResult = WinningResult(numbers: seq<int>, rank: int, matchedNumbers: seq<int>)

  datatype CheckResult = CheckResult(success: bool, results: Option<seq<WinningResult>>, message: string)

  const EmptyNumbersMessage: string := "확인할 로또 번호를 입력해주세요."
  const SetSizeMessage: string := "로또 번호는 6개여야 합니다."
  const NumberRangeMessage: string := "로또 번호는 1~45 사이여야 합니다."
  const CheckFailure: string := "당첨 확인 실패: "
  const CheckedSuffix: string := "회차 당첨 결과를 확인했습니다."

  /** A set the service accepts: six numbers, each in 1..45. */
  predicate ValidSet(picks: seq<int>)
  {
    |picks| == 6 && forall j :: 0 <= j < |picks| ==> 1 <= picks[j] <= 45
  }

  /** The complaint about one set: its size is checked before its numbers. */
  function SetError(picks: seq<int>): (r: Option<string>)
  {
    if |picks| != 6 then Some(SetSizeMessage)
    else if exists j :: 0 <= j < |picks| && !(1 <= picks[j] <= 45) then Some(NumberRangeMessage)
    else None
  }

  /** The complaint about the first set, in order, that has one. */
  function SetsError(sets: seq<seq<int>>): (r: Option<string>)
    decreases |sets|
  {
    if sets == [] then None
    else if SetError(sets[0]).Some? then SetError(sets[0])
    else SetsError(sets[1..])
  }

  /** Input validation of `checkLottoWinning`: an empty list first, then the sets in order. */
  function NumbersError(numbers: seq<seq<int>>): (r: Option<string>)
  {
    if |numbers| == 0 then Some(EmptyNumbersMessage) else SetsError(numbers)
  }

  /** Validation passes exactly when there is at least one set and every set is valid. */
  lemma {:induction false} NumbersErrorNone(numbers: seq<seq<int>>)
    ensures NumbersError(numbers) == None <==> |numbers| > 0 && forall i :: 0 <= i < |numbers| ==> ValidSet(numbers[i])
  {
    SetsErrorNone(numbers);
  }

  lemma {:induction false} SetsErrorNone(sets: seq<seq<int>>)
    ensures SetsError(sets) == None <==> forall i :: 0 <= i < |sets| ==> ValidSet(sets[i])
    decreases |sets|
  {
    if sets != [] {
      SetsErrorNone(sets[1..]);
      assert SetError(sets[0]) == None <==> ValidSet(sets[0]);
      if forall i :: 0 <= i < |sets| ==> ValidSet(sets[i]) {
        assert forall i :: 0 <= i < |sets| - 1 ==> ValidSet(sets[1..][i]) by {
          forall i | 0 <= i < |sets| - 1 ensures ValidSet(sets[1..][i]) { assert sets[1..][i] == sets[i + 1]; }
        }
      }
      if SetsError(sets) == None {
        forall i | 0 <= i < |sets| ensures ValidSet(sets[i]) {
          if i > 0 { assert sets[i] == sets[1..][i - 1]; }
        }
      }
    }
  }

  /** The first invalid set decides the message: the size message if its size is wrong, otherwise the range message. */
  lemma {:induction false} FirstInvalidSetDecides(numbers: seq<seq<int>>, k: nat)
    requires k < |numbers| && !ValidSet(numbers[k])
    requires forall i :: 0 <= i < k ==> ValidSet(numbers[i])
    ensures NumbersError(numbers) == Some(if |numbers[k]| != 6 then SetSizeMessage else NumberRangeMessage)
    decreases k
  {
    FirstInvalidOfSets(numbers, k);
  }

  lemma {:induction false} FirstInvalidOfSets(sets: seq<seq<int>>, k: nat)
    requires k < |sets| && !ValidSet(sets[k])
    requires forall i :: 0 <= i < k ==> ValidSet(sets[i])
    ensures SetsError(sets) == Some(if |sets[k]| != 6 then SetSizeMessage else NumberRangeMessage)
    decreases k
  {
    if k == 0 {
      assert SetError(sets[0]).Some?;
    } else {
      assert ValidSet(sets[0]);
      assert SetError(sets[0]) == None;
      assert sets[1..][k - 1] == sets[k];
      forall i | 0 <= i < k - 1 ensures ValidSet(sets[1..][i]) {
        assert sets[1..][i] == sets[i + 1];
      }
      FirstInvalidOfSets(sets[1..], k - 1);
    }
  }

  /** The nested validation loops of `checkLottoWinning`, returning the first complaint. */
  method ValidateNumbers(numbers: seq<seq<int>>) returns (error: Option<string>)
    ensures error == NumbersError(numbers)
  {
    if |numbers| == 0 {
      return Some(EmptyNumbersMessage);
    }
    for i := 0 to |numbers|
      invariant SetsError(numbers) == SetsError(numbers[i..])
    {
      var picks := numbers[i];
      assert numbers[i..][1..] == numbers[i + 1..];
      if |picks| != 6 {
        return Some(SetSizeMessage);
      }
      for j := 0 to |picks|
        invariant forall k :: 0 <= k < j ==> 1 <= picks[k] <= 45
      {
        if picks[j] < 1 || picks[j] > 45 {
          return Some(NumberRangeMessage);
        }
      }
    }
    return None;
  }

  /** `round || getLastLottoRound()`: an absent round and a round of 0 both mean the latest one. */
  function TargetRound(round: Option<int>, lastRound: int): (r: int)
  {
    if round.Some? && round.value != 0 then round.value else lastRound
  }

  function RankAt(entries: seq<CheckEntry>, i: nat): (r: int)
  {
    if i < |entries| && entries[i].rank.Some? then entries[i].rank.value else 0
  }

  function MatchedAt(entries: seq<CheckEntry>, i: nat): (r: seq<int>)
  {
    if i < |entries| && entries[i].matchedNumbers.Some? then entries[i].matchedNumbers.value else []
  }

  /** The `numbers.map(...)` of `checkLottoWinning`: one result per input set, in order. */
  function MergeResults(numbers: seq<seq<int>>, entries: seq<CheckEntry>): (r: seq<WinningResult>)
  {
    seq(|numbers|, i requires 0 <= i < |numbers| => WinningResult(numbers[i], RankAt(entries, i), MatchedAt(entries, i)))
  }

  /** The effect of one `checkLottoWinning` call: its result and the requests it made. */
  datatype CheckOutcome = CheckOutcome(result: CheckResult, requests: seq<Request>)

  /** `checkLottoWinning(numbers, round)` when the collaborator answers with `replies`. */
  function CheckStep(numbers: seq<seq<int>>, round: Option<int>, replies: Replies): (o: CheckOutcome)
    // invalid input is answered without asking the collaborator
    ensures NumbersError(numbers).Some? ==>
      o == CheckOutcome(CheckResult(false, None, NumbersError(numbers).value), [])
    // valid input is checked once, for the given round or, when it is absent or 0, the latest one
    ensures NumbersError(numbers).None? ==>
      o.requests == [CheckRequest(numbers, if round.Some? && round.value != 0 then round.value else replies.lastRound)]
    ensures o.result.success <==> NumbersError(numbers).None? && replies.check.Ok?
    // one result per input set, in order, with rank 0 and no matched numbers where the answer says nothing
    ensures o.result.success ==> o.result.results.Some? && |o.result.results.value| == |numbers|
    ensures o.result.success ==> forall i :: 0 <= i < |numbers| ==>
      var w := o.result.results.value[i];
      && w.numbers == numbers[i]
      && (i < |replies.check.value| && replies.check.value[i].rank.Some? ==> w.rank == replies.check.value[i].rank.value)
      && (i >= |replies.check.value| || replies.check.value[i].rank.None? ==> w.rank == 0)
      && (i < |replies.check.value| && replies.check.value[i].matchedNumbers.Some? ==> w.matchedNumbers == replies.check.value[i].matchedNumbers.value)
      && (i >= |replies.check.value| || replies.check.value[i].matchedNumbers.None? ==> w.matchedNumbers == [])
    ensures o.result.success ==> o.result.message == IntToString(TargetRound(round, replies.lastRound)) + CheckedSuffix
    ensures !o.result.success ==> o.result.results == None
    ensures !o.result.success && NumbersError(numbers).None? ==> CheckFailure <= o.result.message
    ensures NumbersError(numbers).None? && replies.check.Err? ==> o.result.message == CheckFailure + Cause(replies.check.error)
  {
    match NumbersError(numbers)
    case Some(message) => CheckOutcome(CheckResult(false, None, message), [])
    case None =>
      var target := TargetRound(round, replies.lastRound);
      match replies.check
      case Err(f) => CheckOutcome(CheckResult(false, None, CheckFailure + Cause(f)), [CheckRequest(numbers, target)])
      case Ok(entries) =>
        CheckOutcome(CheckResult(true, Some(MergeResults(numbers, entries)), IntToString(target) + CheckedSuffix), [CheckRequest(numbers, target)])
  }

  // ---------------------------------------------------------------- the service object

  /** `LottoMCPService`: the configuration, the collaborator, and whether this process has signed in. */
  class LottoMCPService {
    const config: MCPConfig
    const client: LottoClient
    var isSignedIn: bool

    constructor(config: MCPConfig, client: LottoClient)
      ensures this.config == config && this.client == client && !isSignedIn
    {
      this.config := config;
      this.client := client;
      isSignedIn := false;
    }

    /** `purchaseLotto`: never throws; its result, the flag and the requests made are those of `PurchaseStep`. */
    method PurchaseLotto(count: int) returns (r: PurchaseResult)
      modifies this`isSignedIn, client`requests
      ensures var o := PurchaseStep(config, old(isSignedIn), count, client.replies);
        r == o.result && isSignedIn == o.signedIn && client.requests == old(client.requests) + o.requests
    {
      if count < 1 || count > 5 {
        return PurchaseResult(false, None, CountRangeMessage);
      }
      var credentials := GetCredentials(config);
      if credentials.Err? {
        return PurchaseFailed(credentials.error);
      }
      var c := credentials.value;
      if !isSignedIn {
        var fault := client.SignIn(c.id, c.password);
        if fault.Some? {
          return PurchaseFailed(Cause(fault.value));
        }
        isSignedIn := true;
      }
      var reply := client.Purchase(count);
      match reply
      case Err(f) =>
        r := PurchaseFailed(Cause(f));
      case Ok(numbers) =>
        r := PurchaseResult(true, Some(numbers), IntToString(count) + PurchasedSuffix);
    }

    /** `checkLottoWinning`: never throws; its result and the requests made are those of `CheckStep`, and the flag is untouched. */
    method CheckLottoWinning(numbers: seq<seq<int>>, round: Option<int>) returns (r: CheckResult)
      modifies client`requests
      ensures var o := CheckStep(numbers, round, client.replies);
        r == o.result && client.requests == old(client.requests) + o.requests
    {
      var error := ValidateNumbers(numbers);
      if error.Some? {
        return CheckResult(false, None, error.value);
      }
      var target: int;
      if round.Some? && round.value != 0 {
        target := round.value;
      } else {
        target := client.LastRound();
      }
      var reply := client.Check(numbers, target);
      match reply
      case Err(f) =>
        r := CheckResult(false, None, CheckFailure + Cause(f));
      case Ok(entries) =>
        r := CheckResult(true, Some(MergeResults(numbers, entries)), IntToString(target) + CheckedSuffix);
    }

    /** `destroy`: asks the collaborator to release its browser, then lowers the flag; a throwing `destroy` propagates and leaves the flag as it was. */
    method Destroy() returns (fault: Option<Fault>)
      modifies this`isSignedIn, client`requests
      ensures client.requests == old(client.requests) + [DestroyRequest]
      ensures fault == client.replies.destroy
      ensures isSignedIn == (fault.Some? && old(isSignedIn))
    {
      fault := client.Destroy();
      if fault.None? {
        isSignedIn := false;
      }
    }
  }
}
