/** The string helpers of `src/lib/utils.ts`: phone-number sanitising and
    validation, network detection from the number's prefix, and the e-mail
    shape check. Each regular expression of the source is written out as a
    predicate over the characters of the string. */
module Utils {
  import opened Base

  predicate IsDigit(c: char)
  {
    '0' <= c <= '9'
  }

  predicate AllDigits(s: string)
  {
    forall i :: 0 <= i < |s| ==> IsDigit(s[i])
  }

  predicate StartsWith(s: string, prefix: string)
  {
    |prefix| <= |s| && s[..|prefix|] == prefix
  }

  /** `s.replace(/\D/g, '')`: the digits of `s`, in order. */
  function StripNonDigits(s: string): (r: string)
    ensures AllDigits(r)
    ensures |r| <= |s|
    ensures AllDigits(s) <==> r == s
  {
    if s == [] then []
    else if IsDigit(s[0]) then [s[0]] + StripNonDigits(s[1..])
    else StripNonDigits(s[1..])
  }

  lemma {:induction false} StripNonDigitsAppend(a: string, b: string)
    ensures StripNonDigits(a + b) == StripNonDigits(a) + StripNonDigits(b)
  {
    if a != [] {
      assert (a + b)[1..] == a[1..] + b;
      StripNonDigitsAppend(a[1..], b);
    } else {
      assert a + b == b;
    }
  }

  /** sanitizePhoneNumber: keep the digits, rewrite a leading country code
      234 to 0, then make sure the number starts with 0. */
  function SanitizePhoneNumber(phone: string): (r: string)
    ensures AllDigits(r)
    ensures |r| >= 1 && r[0] == '0'
  {
    var digits := StripNonDigits(phone);
    var local := if StartsWith(digits, "234") then "0" + digits[3..] else digits;
    if StartsWith(local, "0") then local else "0" + local
  }

  /** A digit string that already starts with 0 is left as it is. */
  lemma SanitizeKeepsLeadingZero(s: string)
    requires AllDigits(s) && |s| >= 1 && s[0] == '0'
    ensures SanitizePhoneNumber(s) == s
  {
    assert StripNonDigits(s) == s;
    assert !StartsWith(s, "234");
    assert StartsWith(s, "0");
  }

  /** The international form: a leading 234 is replaced by a single 0. */
  lemma SanitizeCountryCode(s: string)
    requires AllDigits(s) && StartsWith(s, "234")
    ensures SanitizePhoneNumber(s) == "0" + s[3..]
  {
    assert StripNonDigits(s) == s;
    assert StartsWith("0" + s[3..], "0");
  }

  /** Whatever separators surround it, a number written with the country
      code (`+234 803 ...`) becomes 0 followed by its digits after the 234. */
  lemma SanitizeInternational(phone: string)
    requires StartsWith(StripNonDigits(phone), "234")
    ensures SanitizePhoneNumber(phone) == "0" + StripNonDigits(phone)[3..]
  {
    assert StartsWith("0" + StripNonDigits(phone)[3..], "0");
  }

  /** Sanitising twice gives what sanitising once gives. */
  lemma SanitizeIdempotent(phone: string)
    ensures SanitizePhoneNumber(SanitizePhoneNumber(phone)) == SanitizePhoneNumber(phone)
  {
    SanitizeKeepsLeadingZero(SanitizePhoneNumber(phone));
  }

  const MobilePrefixes: seq<string> := ["070", "080", "081", "090", "091"]

  /** validatePhoneNumber: `/^(070|080|081|090|091)\d{8}$/`. */
  predicate ValidatePhoneNumber(phone: string): (ok: bool)
    // an accepted number is eleven characters starting 07, 08 or 09
    ensures ok ==> |phone| == 11 && phone[0] == '0' && phone[1] in "789"
  {
    |phone| == 11 && phone[..3] in MobilePrefixes && AllDigits(phone[3..]) &&
    assert phone[0] == phone[..3][0] && phone[1] == phone[..3][1];
    true
  }

  /** The accepted numbers are exactly the eleven-digit strings with one of the five prefixes. */
  lemma ValidatePhoneNumberShape(phone: string)
    ensures ValidatePhoneNumber(phone) <==>
            |phone| == 11 && AllDigits(phone) && phone[..3] in MobilePrefixes
  {
    if |phone| == 11 && phone[..3] in MobilePrefixes && AllDigits(phone[3..]) {
      forall i | 0 <= i < 11 ensures IsDigit(phone[i]) {
        if i < 3 {
          assert phone[i] == phone[..3][i];
        } else {
          assert phone[i] == phone[3..][i - 3];
        }
      }
    }
  }

  /** A number that passes validation is a fixed point of sanitising. */
  lemma ValidNumberIsSanitized(phone: string)
    requires ValidatePhoneNumber(phone)
    ensures SanitizePhoneNumber(phone) == phone
  {
    ValidatePhoneNumberShape(phone);
    assert phone[0] == phone[..3][0];
    SanitizeKeepsLeadingZero(phone);
  }

  datatype Network = Mtn | Glo | Airtel | NineMobile {
    function Name(): string
    {
      match this
      case Mtn => "MTN"
      case Glo => "GLO"
      case Airtel => "AIRTEL"
      case NineMobile => "9MOBILE"
    }
  }

  const MtnPrefixes: seq<string> := ["0703", "0706", "0803", "0806", "0810", "0813", "0814", "0816", "0903", "0906", "0913"]
  const GloPrefixes: seq<string> := ["0705", "0805", "0807", "0811", "0815", "0905", "0915"]
  const AirtelPrefixes: seq<string> := ["0701", "0708", "0802", "0808", "0812", "0901", "0902", "0907", "0912"]
  const NineMobilePrefixes: seq<string> := ["0809", "0817", "0818", "0908", "0909"]

  function Prefixes(n: Network): seq<string>
  {
    match n
    case Mtn => MtnPrefixes
    case Glo => GloPrefixes
    case Airtel => AirtelPrefixes
    case NineMobile => NineMobilePrefixes
  }

  /** `s.slice(0, 4)` */
  function Head4(s: string): (r: string)
    ensures |r| == if |s| < 4 then |s| else 4
    ensures r == s[..|r|]
  {
    if |s| < 4 then s else s[..4]
  }

  /** getNetworkFromPhone: the first list, in the order MTN, GLO, AIRTEL,
      9MOBILE, that holds the first four characters of the sanitised number. */
  function GetNetworkFromPhone(phone: string): (r: Option<Network>)
    ensures r.Some? ==> Head4(SanitizePhoneNumber(phone)) in Prefixes(r.value)
    ensures r.None? <==> forall n: Network :: Head4(SanitizePhoneNumber(phone)) !in Prefixes(n)
  {
    var prefix := Head4(SanitizePhoneNumber(phone));
    if prefix in MtnPrefixes then Some(Mtn)
    else if prefix in GloPrefixes then Some(Glo)
    else if prefix in AirtelPrefixes then Some(Airtel)
    else if prefix in NineMobilePrefixes then Some(NineMobile)
    else None
  }

  /** No four-digit prefix belongs to two networks. */
  lemma PrefixListsDisjoint(n: Network, m: Network, p: string)
    requires n != m
    ensures !(p in Prefixes(n) && p in Prefixes(m))
  {
    if p in Prefixes(n) && p in Prefixes(m) {
      var i :| 0 <= i < |Prefixes(n)| && Prefixes(n)[i] == p;
      var j :| 0 <= j < |Prefixes(m)| && Prefixes(m)[j] == p;
      PrefixEntriesDiffer(n, m, i, j);
    }
  }

  /** Each entry of one network's list differs from each entry of another's. */
  lemma PrefixEntriesDiffer(n: Network, m: Network, i: nat, j: nat)
    requires n != m && i < |Prefixes(n)| && j < |Prefixes(m)|
    ensures Prefixes(n)[i] != Prefixes(m)[j]
  {
    match (n, m)
    case (Mtn, Glo) => MtnGloDiffer(i, j);
    case (Glo, Mtn) => MtnGloDiffer(j, i);
    case (Mtn, Airtel) => MtnAirtelDiffer(i, j);
    case (Airtel, Mtn) => MtnAirtelDiffer(j, i);
    case (Mtn, NineMobile) => MtnNineMobileDiffer(i, j);
    case (NineMobile, Mtn) => MtnNineMobileDiffer(j, i);
    case (Glo, Airtel) => GloAirtelDiffer(i, j);
    case (Airtel, Glo) => GloAirtelDiffer(j, i);
    case (Glo, NineMobile) => GloNineMobileDiffer(i, j);
    case (NineMobile, Glo) => GloNineMobileDiffer(j, i);
    case (Airtel, NineMobile) => AirtelNineMobileDiffer(i, j);
    case (NineMobile, Airtel) => AirtelNineMobileDiffer(j, i);
  }

  lemma MtnGloDiffer(i: nat, j: nat)
    requires i < |MtnPrefixes| && j < |GloPrefixes|
    ensures MtnPrefixes[i] != GloPrefixes[j]
  {
  }

  lemma MtnAirtelDiffer(i: nat, j: nat)
    requires i < |MtnPrefixes| && j < |AirtelPrefixes|
    ensures MtnPrefixes[i] != AirtelPrefixes[j]
  {
  }

  lemma MtnNineMobileDiffer(i: nat, j: nat)
    requires i < |MtnPrefixes| && j < |NineMobilePrefixes|
    ensures MtnPrefixes[i] != NineMobilePrefixes[j]
  {
  }

  lemma GloAirtelDiffer(i: nat, j: nat)
    requires i < |GloPrefixes| && j < |AirtelPrefixes|
    ensures GloPrefixes[i] != AirtelPrefixes[j]
  {
  }

  lemma GloNineMobileDiffer(i: nat, j: nat)
    requires i < |GloPrefixes| && j < |NineMobilePrefixes|
    ensures GloPrefixes[i] != NineMobilePrefixes[j]
  {
  }

  lemma AirtelNineMobileDiffer(i: nat, j: nat)
    requires i < |AirtelPrefixes| && j < |NineMobilePrefixes|
    ensures AirtelPrefixes[i] != NineMobilePrefixes[j]
  {
  }

  /** Because the lists are disjoint, the order in which they are tried does
      not matter: the answer is the one network whose list holds the prefix. */
  lemma NetworkIsUniqueMatch(phone: string, n: Network)
    ensures GetNetworkFromPhone(phone) == Some(n) <==> Head4(SanitizePhoneNumber(phone)) in Prefixes(n)
  {
    var p := Head4(SanitizePhoneNumber(phone));
    if p in Prefixes(n) {
      var r := GetNetworkFromPhone(phone);
      assert r.Some?;
      if r.value != n {
        PrefixListsDisjoint(n, r.value, p);
      }
    }
  }

  /** Detecting the network of an already sanitised number gives the same answer. */
  lemma NetworkOfSanitized(phone: string)
    ensures GetNetworkFromPhone(SanitizePhoneNumber(phone)) == GetNetworkFromPhone(phone)
  {
    SanitizeIdempotent(phone);
  }

  /** `\s` of a JavaScript regular expression. */
  predicate IsWhitespace(c: char)
  {
    c == ' ' || c == '\t' || c == '\n' || c == '\r' || c == '\U{000B}' || c == '\U{000C}'
    || c == '\U{00A0}' || c == '\U{1680}' || ('\U{2000}' <= c <= '\U{200A}')
    || c == '\U{2028}' || c == '\U{2029}' || c == '\U{202F}' || c == '\U{205F}'
    || c == '\U{3000}' || c == '\U{FEFF}'
  }

  /** A run matched by `[^\s@]+` once it is known to be non-empty. */
  predicate Plain(s: string)
  {
    forall k :: 0 <= k < |s| ==> s[k] != '@' && !IsWhitespace(s[k])
  }

  function IndexOf(s: string, c: char): (r: Option<nat>)
    ensures r.Some? ==> r.value < |s| && s[r.value] == c && c !in s[..r.value]
    ensures r.None? ==> c !in s
  {
    if s == [] then None
    else if s[0] == c then Some(0)
    else match IndexOf(s[1..], c)
      case None => None
      case Some(i) => assert s[..i + 1] == [s[0]] + s[1..][..i]; Some(i + 1)
  }

  /** validateEmail: `/^[^\s@]+@[^\s@]+\.[^\s@]+$/`, computed by locating the
      one `@` and then a dot with text on both sides of it in the domain. */
  predicate ValidateEmail(email: string): (ok: bool)
    // the shortest accepted address is `a@b.c`, and none starts with its `@`
    ensures ok ==> |email| >= 5 && email[0] != '@' && '@' in email
  {
    match IndexOf(email, '@')
    case None => false
    case Some(i) =>
      0 < i && Plain(email[..i]) && Plain(email[i + 1..]) && HasInnerDot(email[i + 1..]) &&
      assert email[0] == email[..i][0];
      true
  }

  /** `[^\s@]+\.[^\s@]+` on a run already known to be plain: a dot that is
      neither the first nor the last character. */
  predicate HasInnerDot(d: string)
  {
    exists j :: 0 < j < |d| - 1 && d[j] == '.'
  }

  /** The regular expression read as a split of the address into local part,
      domain and final label: `email[..i] @ email[i+1..j] . email[j+1..]`. */
  ghost predicate EmailShape(email: string)
  {
    exists i, j :: 0 < i && i + 1 < j && j + 1 < |email| && email[i] == '@' && email[j] == '.' &&
                   Plain(email[..i]) && Plain(email[i + 1..j]) && Plain(email[j + 1..])
  }

  lemma ValidEmailHasShape(email: string)
    requires ValidateEmail(email)
    ensures EmailShape(email)
  {
    var i := IndexOf(email, '@').value;
    var d := email[i + 1..];
    var j :| 0 < j < |d| - 1 && d[j] == '.';
    var k := i + 1 + j;
    assert email[k] == d[j];
    assert email[i + 1..k] == d[..j];
    assert email[k + 1..] == d[j + 1..];
    assert Plain(email[i + 1..k]) && Plain(email[k + 1..]);
  }

  lemma ShapedEmailIsValid(email: string, i: nat, j: nat)
    requires 0 < i && i + 1 < j && j + 1 < |email| && email[i] == '@' && email[j] == '.'
    requires Plain(email[..i]) && Plain(email[i + 1..j]) && Plain(email[j + 1..])
    ensures ValidateEmail(email)
  {
    assert '@' !in email[..i] by {
      forall k | 0 <= k < i ensures email[..i][k] != '@' { }
    }
    assert email[i] in email;
    assert IndexOf(email, '@') == Some(i);
    var d := email[i + 1..];
    forall k | 0 <= k < |d| ensures d[k] != '@' && !IsWhitespace(d[k]) {
      if i + 1 + k < j {
        assert d[k] == email[i + 1..j][k];
      } else if i + 1 + k > j {
        assert d[k] == email[j + 1..][k - (j - i)];
      }
    }
    assert d[j - i - 1] == '.';
  }

  /** The computed check and the regular expression accept the same strings. */
  lemma EmailMatchesRegex(email: string)
    ensures ValidateEmail(email) <==> EmailShape(email)
  {
    if ValidateEmail(email) {
      ValidEmailHasShape(email);
    }
    if EmailShape(email) {
      var i, j :| 0 < i && i + 1 < j && j + 1 < |email| && email[i] == '@' && email[j] == '.' &&
                  Plain(email[..i]) && Plain(email[i + 1..j]) && Plain(email[j + 1..]);
      ShapedEmailIsValid(email, i, j);
    }
  }

  /** The properties the check promises: exactly one `@`, no whitespace, a
      non-empty local part, and a dot after the `@` with text on both sides. */
  lemma ValidEmailProperties(email: string)
    requires ValidateEmail(email)
    ensures exists i :: 0 < i < |email| && email[i] == '@' && '@' !in email[..i] && '@' !in email[i + 1..]
    ensures forall k :: 0 <= k < |email| ==> !IsWhitespace(email[k])
    ensures exists j :: 0 < j < |email| - 1 && email[j] == '.' && '@' in email[..j] && email[j - 1] != '@'
  {
    var i := IndexOf(email, '@').value;
    var d := email[i + 1..];
    assert '@' !in d by {
      forall k | 0 <= k < |d| ensures d[k] != '@' { }
    }
    forall k | 0 <= k < |email| ensures !IsWhitespace(email[k]) {
      if k < i {
        assert email[k] == email[..i][k];
      } else if k > i {
        assert email[k] == d[k - i - 1];
      }
    }
    var j :| 0 < j < |d| - 1 && d[j] == '.';
    assert email[i + 1 + j] == '.';
    assert email[..i + 1 + j][i] == '@';
    assert email[i + j] == d[j - 1];
  }
}
