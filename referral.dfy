/**
 * Registration through the `/start` command and the referral credit it may
 * trigger. The referral code is the command's argument trimmed, with the
 * first "ref" removed; it is compared as text with the user's decimal id,
 * while the referrer credited is the code read as an integer.
 */
module Referral {
  import opened Options
  import opened Accounts

  // ---------------------------------------------------------------------------
  // Text

  /** The characters `String.prototype.trim` removes: ECMAScript white space and line terminators. */
  predicate IsTrimmable(c: char) {
    var n := c as int;
    || n == 0x09 || n == 0x0A || n == 0x0B || n == 0x0C || n == 0x0D || n == 0x20
    || n == 0xA0 || n == 0x1680 || (0x2000 <= n <= 0x200A) || n == 0x2028 || n == 0x2029
    || n == 0x202F || n == 0x205F || n == 0x3000 || n == 0xFEFF
  }

  /** `s` without its leading trimmable characters. */
  function TrimStart(s: string): (r: string)
    ensures |r| <= |s| && r == s[|s| - |r|..]
    ensures r == [] || !IsTrimmable(r[0])
    ensures forall i :: 0 <= i < |s| - |r| ==> IsTrimmable(s[i])
  {
    if s != [] && IsTrimmable(s[0]) then TrimStart(s[1..]) else s
  }

  /** `s` without its trailing trimmable characters. */
  function TrimEnd(s: string): (r: string)
    ensures |r| <= |s| && r == s[..|r|]
    ensures r == [] || !IsTrimmable(r[|r| - 1])
    ensures forall i :: |r| <= i < |s| ==> IsTrimmable(s[i])
  {
    if s != [] && IsTrimmable(s[|s| - 1]) then TrimEnd(s[..|s| - 1]) else s
  }

  /** `String.prototype.trim`: `s` without trimmable characters at either end. */
  function Trim(s: string): (r: string)
    ensures |r| <= |s|
    ensures r == [] || (!IsTrimmable(r[0]) && !IsTrimmable(r[|r| - 1]))
    ensures r == [] ==> forall i :: 0 <= i < |s| ==> IsTrimmable(s[i])
  {
    TrimEnd(TrimStart(s))
  }

  predicate OccursAt(s: string, pat: string, k: int) {
    0 <= k && k + |pat| <= |s| && s[k..k + |pat|] == pat
  }

  /** The first position where `pat` occurs in `s`, or -1, as `String.prototype.indexOf`. */
  function IndexOf(s: string, pat: string): (r: int)
    ensures r == -1 || OccursAt(s, pat, r)
    ensures forall k :: 0 <= k && (r == -1 || k < r) ==> !OccursAt(s, pat, k)
    decreases |s|
  {
    if |s| < |pat| then -1
    else if s[..|pat|] == pat then 0
    else
      var j := IndexOf(s[1..], pat);
      OccursShift(s, pat);
      if j == -1 then -1 else j + 1
  }

  /** An occurrence after the first character is an occurrence in the tail, one position earlier. */
  lemma OccursShift(s: string, pat: string)
    requires s != []
    ensures forall k :: 1 <= k ==> (OccursAt(s, pat, k) <==> OccursAt(s[1..], pat, k - 1))
  {
  }

  /** `s.replace(pat, '')` with a string pattern: the first occurrence removed. */
  function RemoveFirst(s: string, pat: string): (r: string)
    ensures var i := IndexOf(s, pat);
            && (i == -1 ==> r == s)
            && (i != -1 ==> |r| + |pat| == |s| && i <= |r| && r[..i] + pat + r[i..] == s)
  {
    var i := IndexOf(s, pat);
    if i == -1 then s
    else
      CutReinserted(s, pat, i);
      s[..i] + s[i + |pat|..]
  }

  /** Cutting an occurrence of `pat` out of `s` and putting it back gives `s`. */
  lemma CutReinserted(s: string, pat: string, i: int)
    requires OccursAt(s, pat, i)
    ensures var r := s[..i] + s[i + |pat|..];
            |r| + |pat| == |s| && r[..i] + pat + r[i..] == s
  {
    var r := s[..i] + s[i + |pat|..];
    assert r[..i] == s[..i] && r[i..] == s[i + |pat|..];
    assert s[..i] + pat + s[i + |pat|..] == s;
  }

  /** The referral code the `/start` handler derives from the command's argument. */
  function ReferralCode(argument: string): (r: string)
    ensures IndexOf(Trim(argument), "ref") == -1 ==> r == Trim(argument)
    ensures IndexOf(Trim(argument), "ref") != -1 ==> |r| + 3 == |Trim(argument)|
    ensures var i := IndexOf(Trim(argument), "ref");
            i != -1 ==> i <= |r| && r[..i] + "ref" + r[i..] == Trim(argument)
  {
    RemoveFirst(Trim(argument), "ref")
  }

  predicate IsDigit(c: char) {
    '0' <= c <= '9'
  }

  /** The value of one decimal digit. */
  function DigitValue(c: char): (d: nat)
    requires IsDigit(c)
    ensures d < 10
  {
    c as int - '0' as int
  }

  function DigitChar(d: int): (c: char)
    requires 0 <= d < 10
    ensures IsDigit(c) && DigitValue(c) == d
  {
    "0123456789"[d]
  }

  /** The decimal digits of `n`, most significant first, without leading zeros. */
  function Digits(n: nat): (r: string)
    ensures r != [] && forall i :: 0 <= i < |r| ==> IsDigit(r[i])
    ensures r[0] == '0' ==> n == 0
    decreases n
  {
    if n < 10 then [DigitChar(n)] else Digits(n / 10) + [DigitChar(n % 10)]
  }

  /** `n.toString()` for an integer below 10^21. */
  function DecimalString(n: int): (r: string)
    ensures r != [] && (r[0] == '-' <==> n < 0)
    ensures n >= 0 ==> (forall i :: 0 <= i < |r| ==> IsDigit(r[i])) && DigitsValue(r) == n
    ensures n < 0 ==> (forall i :: 1 <= i < |r| ==> IsDigit(r[i])) && DigitsValue(r[1..]) == -n
  {
    DigitsRoundTrip(if n < 0 then -n else n);
    if n < 0 then "-" + Digits(-n) else Digits(n)
  }

  /** The value of a string of decimal digits, as `parseInt` reads it. */
  function DigitsValue(s: string): (r: nat)
    requires forall i :: 0 <= i < |s| ==> IsDigit(s[i])
    ensures r < Pow10(|s|)
    ensures r == 0 <==> forall i :: 0 <= i < |s| ==> s[i] == '0'
    decreases |s|
  {
    if s == [] then 0 else DigitsValue(s[..|s| - 1]) * 10 + DigitValue(s[|s| - 1])
  }

  function Pow10(k: nat): (r: nat)
    ensures r >= 1
  {
    if k == 0 then 1 else 10 * Pow10(k - 1)
  }

  /** Reading the decimal digits of `n` gives `n` back. */
  lemma {:induction false} DigitsRoundTrip(n: nat)
    ensures DigitsValue(Digits(n)) == n
    decreases n
  {
    if n >= 10 {
      DigitsRoundTrip(n / 10);
      var d := Digits(n);
      assert d[..|d| - 1] == Digits(n / 10);
    }
  }

  /** A leading zero does not change the value read. */
  lemma {:induction false} LeadingZeroIgnored(s: string)
    requires forall i :: 0 <= i < |s| ==> IsDigit(s[i])
    ensures DigitsValue("0" + s) == DigitsValue(s)
    decreases |s|
  {
    if s != [] {
      var z := "0" + s;
      assert z[..|z| - 1] == "0" + s[..|s| - 1];
      LeadingZeroIgnored(s[..|s| - 1]);
    }
  }

  /** A string that starts and ends with non-trimmable characters is its own trim. */
  lemma TrimKeepsClean(s: string)
    requires s != [] && !IsTrimmable(s[0]) && !IsTrimmable(s[|s| - 1])
    ensures Trim(s) == s
  {
  }

  /** Trimming drops a leading blank. */
  lemma TrimLeadingBlank(s: string)
    ensures TrimStart([' '] + s) == TrimStart(s)
  {
    assert ([' '] + s)[1..] == s;
  }

  /** A blank followed by a string with non-trimmable ends trims to that string. */
  lemma TrimAfterBlank(s: string)
    requires s != [] && !IsTrimmable(s[0]) && !IsTrimmable(s[|s| - 1])
    ensures Trim([' '] + s) == s
  {
    TrimLeadingBlank(s);
    TrimKeepsClean(s);
  }

  /** The first "ref" of a string that starts with "ref" is at its start. */
  lemma MarkerFirst(d: string)
    ensures IndexOf("ref" + d, "ref") == 0
  {
    assert ("ref" + d)[..3] == "ref";
  }

  /** Removing the first "ref" of "ref<d>" leaves `d`. */
  lemma RemoveMarker(d: string)
    ensures RemoveFirst("ref" + d, "ref") == d
  {
    MarkerFirst(d);
    assert ("ref" + d)[3..] == d;
  }

  /** The argument " ref<d>" yields the code `d` when `d` does not end in white space. */
  lemma CodeAfterMarker(d: string)
    requires d != [] && !IsTrimmable(d[|d| - 1])
    ensures ReferralCode(" ref" + d) == d
  {
    var s := "ref" + d;
    assert " ref" + d == [' '] + s;
    assert s[0] == 'r' && s[|s| - 1] == d[|d| - 1];
    TrimAfterBlank(s);
    RemoveMarker(d);
  }

  /**
   * The invitation link `?start=ref<id>` reaches the handler as the argument
   * " ref<id>", and the code derived from it is the inviter's decimal id,
   * which reads back as that id.
   */
  lemma InviteCodeRoundTrip(id: nat)
    ensures ReferralCode(" ref" + Digits(id)) == Digits(id)
    ensures DigitsValue(ReferralCode(" ref" + Digits(id))) == id
  {
    CodeAfterMarker(Digits(id));
    DigitsRoundTrip(id);
  }

  // ---------------------------------------------------------------------------
  // Registration

  /** One `/start` command: the sender's name, the text after "/start", and `parseInt` of the code (None for NaN). */
  datatype StartRequest = StartRequest(username: string, argument: string, parsedReferrer: Option<int>, now: int)

  /** The new tables, and whether a referrals row was inserted. */
  datatype Registration = Registration(tables: Tables, recorded: bool)

  /** `INSERT ... ON CONFLICT (user_id) DO NOTHING`: the row is added only for an unknown id. */
  function Enrolled(users: map<int, Account>, userId: int, username: string, now: int): (r: map<int, Account>)
    ensures r.Keys == users.Keys + {userId}
    ensures forall id :: id in users ==> r[id] == users[id]
    ensures userId !in users ==> r[userId] == NewAccount(username, now)
  {
    if userId in users then users else users[userId := NewAccount(username, now)]
  }

  /**
   * Registration followed by the referral step towards `referrer`: a
   * referrals row is inserted unless one exists for this id already, and
   * only then is the referrer credited, if its row exists.
   */
  function RegisterWith(t: Tables, userId: int, username: string, now: int, referrer: Option<int>): (r: Registration)
    ensures r.recorded <==> referrer.Some? && userId !in t.referrals
    ensures r.tables.referrals == if r.recorded then t.referrals[userId := referrer.value] else t.referrals
    ensures r.tables.users.Keys == t.users.Keys + {userId}
    ensures forall id :: id in r.tables.users && !(r.recorded && id == referrer.value) ==>
              r.tables.users[id] == Enrolled(t.users, userId, username, now)[id]
    ensures r.recorded && referrer.value in r.tables.users ==>
              r.tables.users[referrer.value] == Credited(Enrolled(t.users, userId, username, now)[referrer.value])
    ensures TablesValid(t) ==> TablesValid(r.tables)
  {
    var users := Enrolled(t.users, userId, username, now);
    if referrer.None? || userId in t.referrals then
      Registration(Tables(users, t.referrals), false)
    else
      var credited := if referrer.value in users then users[referrer.value := Credited(users[referrer.value])] else users;
      Registration(Tables(credited, t.referrals[userId := referrer.value]), true)
  }

  /** The referrer the handler tries to credit, as written: the self-check compares text. */
  function ReferrerAsWritten(userId: int, code: string, parsed: Option<int>): (r: Option<int>)
    ensures r.Some? <==> code != "" && code != DecimalString(userId) && parsed.Some?
    ensures r.Some? ==> r == parsed
  {
    // A NaN referrer makes the insert fail, which the handler only logs.
    if code != "" && code != DecimalString(userId) then parsed else None
  }

  /** `/start` as the handler performs it. */
  function RegisterAsWritten(t: Tables, userId: int, req: StartRequest): (r: Registration)
    ensures r.recorded <==> userId !in t.referrals && req.parsedReferrer.Some?
                            && ReferralCode(req.argument) != "" && ReferralCode(req.argument) != DecimalString(userId)
    ensures r.recorded ==> userId in r.tables.referrals && r.tables.referrals[userId] == req.parsedReferrer.value
    ensures !r.recorded ==> r.tables.referrals == t.referrals
    ensures r.tables.users.Keys == t.users.Keys + {userId}
  {
    RegisterWith(t, userId, req.username, req.now,
                 ReferrerAsWritten(userId, ReferralCode(req.argument), req.parsedReferrer))
  }

  /** The argument " ref0<n>" yields the code "0<n>". */
  lemma PaddedCode(n: nat)
    ensures ReferralCode(" ref0" + Digits(n)) == "0" + Digits(n)
  {
    var d := Digits(n);
    var padded := "0" + d;
    assert " ref0" + d == " ref" + padded;
    assert IsDigit(d[|d| - 1]);
    assert padded[|padded| - 1] == d[|d| - 1];
    CodeAfterMarker(padded);
  }

  /** The code of "/start ref0<n>" is "0<n>": not the text of `n`, yet it reads as `n`. */
  lemma PaddedSelfCode(n: nat)
    ensures ReferralCode(" ref0" + Digits(n)) == "0" + Digits(n)
    ensures DigitsValue("0" + Digits(n)) == n
    ensures ReferralCode(" ref0" + Digits(n)) != DecimalString(n)
  {
    PaddedCode(n);
    LeadingZeroIgnored(Digits(n));
    DigitsRoundTrip(n);
    assert |"0" + Digits(n)| != |DecimalString(n)|;
  }

  /** User `n` has been recorded as their own referrer, and their row has received the bonus. */
  predicate CreditedAsOwnReferrer(reg: Registration, t: Tables, n: int, username: string, now: int) {
    && reg.recorded && n in reg.tables.referrals && reg.tables.referrals[n] == n
    && n in reg.tables.users && n in Enrolled(t.users, n, username, now)
    && reg.tables.users[n].coins == Enrolled(t.users, n, username, now)[n].coins + ReferralBonus
  }

  /**
   * A user whose id is `n` sends "/start ref0<n>": the code "0<n>" differs from
   * "<n>" as text but reads as `n`, so the user is recorded as their own
   * referrer and receives the bonus.
   */
  lemma SelfReferralPassesTextualCheck(t: Tables, n: nat, username: string, now: int)
    requires n !in t.referrals
    ensures ReferralCode(" ref0" + Digits(n)) == "0" + Digits(n)
    ensures DigitsValue("0" + Digits(n)) == n
    ensures ReferralCode(" ref0" + Digits(n)) != DecimalString(n)
    ensures CreditedAsOwnReferrer(RegisterAsWritten(t, n, StartRequest(username, " ref0" + Digits(n), Some(n), now)),
                                  t, n, username, now)
  {
    PaddedSelfCode(n);
    var req := StartRequest(username, " ref0" + Digits(n), Some(n), now);
    assert ReferrerAsWritten(n, ReferralCode(req.argument), req.parsedReferrer) == Some(n);
    RecordedSelfReferralCredits(t, n, username, now);
  }

  /** A referral of `n` to itself, once inserted, credits `n`'s own row. */
  lemma RecordedSelfReferralCredits(t: Tables, n: int, username: string, now: int)
    requires n !in t.referrals
    ensures CreditedAsOwnReferrer(RegisterWith(t, n, username, now, Some(n)), t, n, username, now)
  {
  }

  /** The intended referrer: as written, but the self-check compares the id that is credited. */
  function Referrer(userId: int, code: string, parsed: Option<int>): (r: Option<int>)
    ensures r.Some? ==> r == parsed && r.value != userId
    ensures r.Some? <==> code != "" && code != DecimalString(userId) && parsed.Some? && parsed.value != userId
  {
    if code != "" && code != DecimalString(userId) && parsed != Some(userId) then parsed else None
  }

  /** `/start` with the corrected self-check. */
  function Register(t: Tables, userId: int, req: StartRequest): (r: Registration)
    ensures r.recorded <==> userId !in t.referrals && req.parsedReferrer.Some? && req.parsedReferrer.value != userId
                            && ReferralCode(req.argument) != "" && ReferralCode(req.argument) != DecimalString(userId)
    ensures r.recorded ==> userId in r.tables.referrals && r.tables.referrals[userId] == req.parsedReferrer.value
    ensures !r.recorded ==> r.tables.referrals == t.referrals
    ensures r.tables.users.Keys == t.users.Keys + {userId}
  {
    RegisterWith(t, userId, req.username, req.now,
                 Referrer(userId, ReferralCode(req.argument), req.parsedReferrer))
  }

  /** With the corrected check no one is recorded as their own referrer, and the new user's row is never credited. */
  lemma RegisterNeverSelfCredits(t: Tables, userId: int, req: StartRequest)
    ensures Register(t, userId, req).recorded ==> Register(t, userId, req).tables.referrals[userId] != userId
    ensures Register(t, userId, req).tables.users[userId] == Enrolled(t.users, userId, req.username, req.now)[userId]
  {
  }

  /** The two checks agree whenever the code is the canonical decimal form of the id it reads as. */
  lemma CorrectionOnlyAffectsNonCanonicalCodes(userId: int, code: string, parsed: Option<int>)
    requires parsed.Some? ==> code == DecimalString(parsed.value)
    ensures Referrer(userId, code, parsed) == ReferrerAsWritten(userId, code, parsed)
  {
  }

  /** The outcome of the same user sending `/start` commands one after another. */
  datatype Replay = Replay(tables: Tables, recorded: nat)

  function ReplayStarts(t: Tables, userId: int, requests: seq<StartRequest>): Replay
    decreases |requests|
  {
    if requests == [] then Replay(t, 0)
    else
      var reg := RegisterAsWritten(t, userId, requests[0]);
      var rest := ReplayStarts(reg.tables, userId, requests[1..]);
      Replay(rest.tables, rest.recorded + if reg.recorded then 1 else 0)
  }

  /**
   * However often a user re-registers, with whatever codes, at most one
   * referral is recorded for them, none if one already was, and a recorded
   * referrer never changes.
   */
  lemma {:induction false} ReferralRecordedAtMostOnce(t: Tables, userId: int, requests: seq<StartRequest>)
    ensures ReplayStarts(t, userId, requests).recorded <= 1
    ensures userId in t.referrals ==> ReplayStarts(t, userId, requests).recorded == 0
    ensures userId in t.referrals ==>
              userId in ReplayStarts(t, userId, requests).tables.referrals
              && ReplayStarts(t, userId, requests).tables.referrals[userId] == t.referrals[userId]
    decreases |requests|
  {
    if requests != [] {
      var reg := RegisterAsWritten(t, userId, requests[0]);
      ReferralRecordedAtMostOnce(reg.tables, userId, requests[1..]);
    }
  }
}
