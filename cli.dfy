/** The `init` command of bin/cli.js: the chain of checks on its options,
    the coercion of the two ratios it writes back into the options object,
    and the one `saveConfig` call that ends a successful run. The exchange
    call, `cron.validate` and the console messages are outside the model:
    whether the exchange answers and what `cron.validate` says are inputs. */
module Cli {
  import opened Common
  import Util
  import Database

  /** The currencies `init` accepts, comma separated. */
  const AcceptableCurrencies: string := "USDT,TRY"

  predicate CurrencyAccepted(currency: string)
    ensures CurrencyAccepted(currency) ==> ',' !in currency
  {
    currency in Util.Split(AcceptableCurrencies, ',')
  }

  /** The constant names exactly two currencies. */
  lemma CurrencyAcceptedExactly(currency: string)
    ensures CurrencyAccepted(currency) <==> currency == "USDT" || currency == "TRY"
  {
    assert AcceptableCurrencies == "USDT" + [','] + "TRY";
    Util.SplitAt("USDT", ',', "TRY");
    Util.SplitNoSeparator("TRY", ',');
  }

  /** White space and line terminators, which `parseInt` skips first. */
  predicate IsSpace(c: char) {
    || c == '\t' || c == '\n' || c == '\U{000B}' || c == '\U{000C}' || c == '\r' || c == ' '
    || c == '\U{00A0}' || c == '\U{1680}' || ('\U{2000}' <= c <= '\U{200A}')
    || c == '\U{2028}' || c == '\U{2029}' || c == '\U{202F}' || c == '\U{205F}'
    || c == '\U{3000}' || c == '\U{FEFF}'
  }

  function TrimStart(s: string): (r: string)
    ensures |r| <= |s| && r == s[|s| - |r|..]
    ensures |r| > 0 ==> !IsSpace(r[0])
    ensures forall k :: 0 <= k < |s| - |r| ==> IsSpace(s[k])
  {
    if |s| > 0 && IsSpace(s[0]) then TrimStart(s[1..]) else s
  }

  /** The longest run of decimal digits that `s` starts with. */
  function DigitPrefix(s: string): (d: string)
    ensures |d| <= |s| && d == s[..|d|] && Util.IsDigits(d)
    ensures |d| < |s| ==> !Util.IsDigit(s[|d|])
  {
    if |s| > 0 && Util.IsDigit(s[0]) then [s[0]] + DigitPrefix(s[1..]) else ""
  }

  /** The number a string of decimal digits denotes. */
  function DigitsValue(d: string): nat
    requires Util.IsDigits(d)
  {
    if |d| == 0 then 0
    else DigitsValue(d[..|d| - 1]) * 10 + (d[|d| - 1] - '0') as nat
  }

  /** The digits `u` starts with, as a number; `None` when there are none. */
  function ParseDigits(u: string): (r: Option<nat>)
    ensures r.None? <==> |u| == 0 || !Util.IsDigit(u[0])
  {
    var d := DigitPrefix(u);
    if |d| == 0 then None else Some(DigitsValue(d))
  }

  /** One optional sign, then the digits. */
  function ParseSigned(t: string): Option<int> {
    if |t| > 0 && t[0] == '-' then
      var v := ParseDigits(t[1..]);
      if v.None? then None else Some(-(v.value as int))
    else if |t| > 0 && t[0] == '+' then
      var v := ParseDigits(t[1..]);
      if v.None? then None else Some(v.value as int)
    else
      var v := ParseDigits(t);
      if v.None? then None else Some(v.value as int)
  }

  /** `Number.parseInt(s, 10)`: skip leading white space, take one optional
      sign, then as many decimal digits as follow; no digit there is NaN,
      written `None`. */
  function ParseInt(s: string): (r: Option<int>)
    ensures r.Some? ==> exists k :: 0 <= k < |s| && Util.IsDigit(s[k])
  {
    DigitRead(s);
    ParseSigned(TrimStart(s))
  }

  /** What `ParseInt` reads, it reads from a digit of `s`. */
  lemma DigitRead(s: string)
    ensures ParseSigned(TrimStart(s)).Some? ==> exists k :: 0 <= k < |s| && Util.IsDigit(s[k])
  {
    var t := TrimStart(s);
    if ParseSigned(t).Some? {
      var k := if |t| > 0 && (t[0] == '-' || t[0] == '+') then 1 else 0;
      assert Util.IsDigit(t[k]);
      assert s[|s| - |t| + k] == t[k];
    }
  }

  function DigitChar(n: nat): char
    requires n < 10
  {
    ('0' as int + n) as char
  }

  /** `String(n)` for a natural number: its decimal digits. */
  function Decimal(n: nat): (r: string)
    ensures |r| > 0 && Util.IsDigits(r)
  {
    if n < 10 then [DigitChar(n)] else Decimal(n / 10) + [DigitChar(n % 10)]
  }

  /** `String(n)` for an integer. */
  function Signed(n: int): (r: string)
    ensures |r| > 0 && (r[0] == '-' || Util.IsDigit(r[0]))
  {
    if n < 0 then "-" + Decimal(-n) else Decimal(n)
  }

  lemma {:induction false} DecimalValue(n: nat)
    ensures DigitsValue(Decimal(n)) == n
  {
    if n >= 10 {
      DecimalValue(n / 10);
      var r := Decimal(n);
      assert r[..|r| - 1] == Decimal(n / 10);
    }
  }

  lemma {:induction false} DigitPrefixOf(d: string, t: string)
    requires Util.IsDigits(d)
    requires |t| == 0 || !Util.IsDigit(t[0])
    ensures DigitPrefix(d + t) == d
  {
    if |d| > 0 {
      assert (d + t)[1..] == d[1..] + t;
      DigitPrefixOf(d[1..], t);
    } else {
      assert d + t == t;
    }
  }

  lemma ParseDigitsOf(d: string, t: string)
    requires |d| > 0 && Util.IsDigits(d)
    requires |t| == 0 || !Util.IsDigit(t[0])
    ensures ParseDigits(d + t) == Some(DigitsValue(d))
  {
    DigitPrefixOf(d, t);
  }

  /** Text that does not start with white space is read as it stands. */
  lemma ParseIntNoLeadingSpace(s: string)
    requires |s| > 0 && !IsSpace(s[0])
    ensures ParseInt(s) == ParseSigned(s)
  {
  }

  lemma ParseIntNegative(m: nat, t: string)
    requires m > 0
    requires |t| == 0 || !Util.IsDigit(t[0])
    ensures ParseInt(Signed(-(m as int)) + t) == Some(-(m as int))
  {
    var d := Decimal(m);
    var s := "-" + d + t;
    assert Signed(-(m as int)) + t == s;
    assert s[0] == '-';
    ParseIntNoLeadingSpace(s);
    assert s[1..] == d + t;
    ParseDigitsOf(d, t);
    DecimalValue(m);
    assert ParseDigits(s[1..]) == Some(m);
    assert ParseSigned(s) == Some(-(m as int));
  }

  lemma ParseIntNatural(m: nat, t: string)
    requires |t| == 0 || !Util.IsDigit(t[0])
    ensures ParseInt(Signed(m) + t) == Some(m)
  {
    var s := Decimal(m) + t;
    assert Signed(m) + t == s;
    assert s[0] == Decimal(m)[0];
    ParseIntNoLeadingSpace(s);
    ParseDigitsOf(Decimal(m), t);
    DecimalValue(m);
  }

  /** `parseInt` reads back what `String` wrote, and stops at the first
      character that is not a digit: `parseInt("7.9")` is 7. */
  lemma ParseIntSigned(n: int, t: string)
    requires |t| == 0 || !Util.IsDigit(t[0])
    ensures ParseInt(Signed(n) + t) == Some(n)
  {
    if n < 0 {
      ParseIntNegative(-n, t);
    } else {
      ParseIntNatural(n, t);
    }
  }

  /** Leading white space does not change what `parseInt` reads. */
  lemma ParseIntSkipsSpace(c: char, s: string)
    requires IsSpace(c)
    ensures ParseInt([c] + s) == ParseInt(s)
  {
    assert ([c] + s)[1..] == s;
    assert TrimStart([c] + s) == TrimStart(s);
  }

  /** Without a digit there is no number. */
  lemma ParseIntNoDigits(s: string)
    requires forall k :: 0 <= k < |s| ==> !Util.IsDigit(s[k])
    ensures ParseInt(s).None?
  {
    var t := TrimStart(s);
    assert forall k :: 0 <= k < |t| ==> !Util.IsDigit(t[k]) by {
      forall k | 0 <= k < |t| ensures !Util.IsDigit(t[k]) {
        assert t[k] == s[|s| - |t| + k];
      }
    }
  }

  /** A ratio option: the text given on the command line, or a number
      (the default `5`, or a value `init` has already coerced). */
  datatype Ratio = Given(text: string) | Whole(n: int)

  /** `Number.parseInt(ratio, 10)`, which first turns a number into its
      decimal string. */
  function ParseRatio(ratio: Ratio): Option<int> {
    match ratio
    case Given(text) => ParseInt(text)
    case Whole(n) => ParseInt(Signed(n))
  }

  /** A ratio passes when it is a number from 2 to 20. */
  predicate RatioInRange(ratio: Option<int>) {
    ratio.Some? && 2 <= ratio.value <= 20
  }

  lemma WholeInRange(n: int)
    ensures ParseRatio(Whole(n)) == Some(n)
    ensures RatioInRange(ParseRatio(Whole(n))) <==> 2 <= n <= 20
  {
    assert Signed(n) + "" == Signed(n);
    ParseIntSigned(n, "");
  }

  datatype InitOutcome =
    | ApiUnreachable
    | CurrencyRejected
    | ExpressionRejected
    | StopLossRejected
    | TargetGainRejected
    | Saved

  /** The verdict of `init`'s checks, in the order it makes them. */
  function CheckInit(apiReachable: bool, currency: string, expressionValid: bool,
                     stoploss: Ratio, targetgain: Ratio): (r: InitOutcome)
    ensures !apiReachable ==> r == ApiUnreachable
    ensures r == Saved ==> && CurrencyAccepted(currency) && expressionValid
                           && RatioInRange(ParseRatio(stoploss)) && RatioInRange(ParseRatio(targetgain))
  {
    if !apiReachable then ApiUnreachable
    else if !CurrencyAccepted(currency) then CurrencyRejected
    else if !expressionValid then ExpressionRejected
    else if !RatioInRange(ParseRatio(stoploss)) then StopLossRejected
    else if !RatioInRange(ParseRatio(targetgain)) then TargetGainRejected
    else Saved
  }

  /** `init` saves exactly when every check passes. */
  lemma CheckInitSavesIff(apiReachable: bool, currency: string, expressionValid: bool,
                          stoploss: Ratio, targetgain: Ratio)
    ensures CheckInit(apiReachable, currency, expressionValid, stoploss, targetgain) == Saved
        <==> && apiReachable
             && (currency == "USDT" || currency == "TRY")
             && expressionValid
             && RatioInRange(ParseRatio(stoploss))
             && RatioInRange(ParseRatio(targetgain))
  {
    CurrencyAcceptedExactly(currency);
  }

  /** Past the exchange check, the currency check rejects exactly the
      currencies other than USDT and TRY. */
  lemma CheckInitCurrency(currency: string, expressionValid: bool, stoploss: Ratio, targetgain: Ratio)
    ensures CheckInit(true, currency, expressionValid, stoploss, targetgain) == CurrencyRejected
        <==> currency != "USDT" && currency != "TRY"
  {
    CurrencyAcceptedExactly(currency);
  }

  /** Past the first three checks, the stop loss is checked before the
      target gain: each is rejected exactly when it is out of range and
      every earlier check passed. */
  lemma CheckInitRatios(currency: string, stoploss: Ratio, targetgain: Ratio)
    requires currency == "USDT" || currency == "TRY"
    ensures CheckInit(true, currency, true, stoploss, targetgain) == StopLossRejected
        <==> !RatioInRange(ParseRatio(stoploss))
    ensures CheckInit(true, currency, true, stoploss, targetgain) == TargetGainRejected
        <==> RatioInRange(ParseRatio(stoploss)) && !RatioInRange(ParseRatio(targetgain))
  {
    CurrencyAcceptedExactly(currency);
  }

  /** With a reachable exchange and a valid expression, the defaults (USDT,
      ratios of 5) are accepted. */
  lemma DefaultsAccepted()
    ensures CheckInit(true, "USDT", true, Whole(5), Whole(5)) == Saved
  {
    CurrencyAcceptedExactly("USDT");
    WholeInRange(5);
  }

  /** The options object `init` receives and partly rewrites. */
  class InitArgs {
    var key: string
    var secret: string
    var currency: string
    var expression: string
    var stoploss: Ratio
    var targetgain: Ratio

    constructor (key: string, secret: string, currency: string, expression: string,
                 stoploss: Ratio, targetgain: Ratio)
      ensures this.key == key && this.secret == secret && this.currency == currency
      ensures this.expression == expression && this.stoploss == stoploss && this.targetgain == targetgain
    {
      this.key := key;
      this.secret := secret;
      this.currency := currency;
      this.expression := expression;
      this.stoploss := stoploss;
      this.targetgain := targetgain;
    }
  }

  /** `init` with the exchange check's result as `apiReachable` and
      `cron.validate` as `validate`. It ends with the verdict of
      `CheckInit`. A ratio that passes is written back as a number, the
      stop loss before the target gain is checked, so a rejected target gain
      leaves the stop loss coerced. Only a full pass saves, and the save
      writes key, secret, currency and expression, not the two ratios. */
  method Init(args: InitArgs, store: Database.Store, apiReachable: bool, validate: string -> bool)
    returns (outcome: InitOutcome)
    modifies args, store
    ensures outcome == CheckInit(apiReachable, old(args.currency), validate(old(args.expression)),
                                 old(args.stoploss), old(args.targetgain))
    ensures args.key == old(args.key) && args.secret == old(args.secret)
    ensures args.currency == old(args.currency) && args.expression == old(args.expression)
    ensures args.stoploss == if outcome == TargetGainRejected || outcome == Saved
                             then Whole(ParseRatio(old(args.stoploss)).value) else old(args.stoploss)
    ensures args.targetgain == if outcome == Saved
                               then Whole(ParseRatio(old(args.targetgain)).value) else old(args.targetgain)
    ensures outcome == Saved ==>
      && store.config == old(store.config)["key" := args.key]["secret" := args.secret]
                                          ["currency" := args.currency]["expression" := args.expression]
      && store.configSaves == old(store.configSaves) + 1
    ensures outcome != Saved ==> store.config == old(store.config) && store.configSaves == old(store.configSaves)
    ensures store.orders == old(store.orders) && store.pairs == old(store.pairs)
  {
    if !apiReachable {
      return ApiUnreachable;
    }
    if !CurrencyAccepted(args.currency) {
      return CurrencyRejected;
    }
    if !validate(args.expression) {
      return ExpressionRejected;
    }
    var stoploss := ParseRatio(args.stoploss);
    var targetgain := ParseRatio(args.targetgain);
    if !RatioInRange(stoploss) {
      return StopLossRejected;
    } else {
      args.stoploss := Whole(stoploss.value);
    }
    if !RatioInRange(targetgain) {
      return TargetGainRejected;
    } else {
      args.targetgain := Whole(targetgain.value);
    }
    store.SaveConfig(args.key, args.secret, args.currency, args.expression);
    return Saved;
  }

  /** `init` as bin/cli.js writes it: the exchange check calls a client
      function the client module does not provide, the call throws inside
      the guard, and every run ends there with nothing changed. */
  method InitAsWritten(args: InitArgs, store: Database.Store, validate: string -> bool)
    returns (outcome: InitOutcome)
    modifies args, store
    ensures outcome == ApiUnreachable
    ensures args.key == old(args.key) && args.secret == old(args.secret)
    ensures args.currency == old(args.currency) && args.expression == old(args.expression)
    ensures args.stoploss == old(args.stoploss) && args.targetgain == old(args.targetgain)
    ensures store.config == old(store.config) && store.configSaves == old(store.configSaves)
    ensures store.orders == old(store.orders) && store.pairs == old(store.pairs)
  {
    outcome := Init(args, store, false, validate);
  }

  /** Even the default options never reach the save as written, while the
      corrected check saves them. */
  lemma DefaultsRejectedAsWritten(validate: string -> bool)
    requires validate("*/5 * * * *")
    ensures CheckInit(false, "USDT", validate("*/5 * * * *"), Whole(5), Whole(5)) == ApiUnreachable
    ensures CheckInit(true, "USDT", validate("*/5 * * * *"), Whole(5), Whole(5)) == Saved
  {
    DefaultsAccepted();
  }
}
