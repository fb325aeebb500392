/**
 * Configuration from the environment (`internal/config/config.go`). The
 * environment is a map; a missing variable reads as the empty string, as
 * `os.Getenv` does. `strconv.Atoi` is modelled for Go's 64-bit `int`.
 */
module Config {
  import opened Wrappers

  type Env = map<string, string>

  const MinInt64: int := -0x8000_0000_0000_0000
  const MaxInt64: int := 0x7FFF_FFFF_FFFF_FFFF

  predicate InInt64(n: int)
  {
    MinInt64 <= n <= MaxInt64
  }

  /** `os.Getenv`: unset and empty are the same. */
  function Getenv(env: Env, key: string): (r: string)
    ensures r == "" <==> key !in env || env[key] == ""
    ensures r != "" ==> key in env && r == env[key]
  {
    if key in env then env[key] else ""
  }

  /** `getEnv`: the variable's value, or the default when it is empty. */
  function GetEnv(env: Env, key: string, default: string): (r: string)
    ensures r == default <==> Getenv(env, key) == "" || Getenv(env, key) == default
    ensures r != default ==> key in env && r == env[key]
  {
    var value := Getenv(env, key);
    if value == "" then default else value
  }

  predicate IsDigit(c: char)
  {
    '0' <= c <= '9'
  }

  predicate AllDigits(s: string)
  {
    forall k :: 0 <= k < |s| ==> IsDigit(s[k])
  }

  /** The value of a string of decimal digits. */
  function DigitsValue(s: string): nat
    requires AllDigits(s)
  {
    if |s| == 0 then 0
    else 10 * DigitsValue(s[..|s| - 1]) + (s[|s| - 1] as int - '0' as int)
  }

  /** The decimal spelling of a natural number, without leading zeros. */
  function NatToDecimal(n: nat): (r: string)
    ensures |r| >= 1 && AllDigits(r)
  {
    if n < 10 then [('0' as int + n) as char]
    else NatToDecimal(n / 10) + [('0' as int + n % 10) as char]
  }

  /** `strconv.Itoa`: the decimal spelling of an integer. */
  function IntToDecimal(n: int): string
  {
    if n < 0 then "-" + NatToDecimal(-n) else NatToDecimal(n)
  }

  const SyntaxError := "invalid syntax"
  const RangeError := "value out of range"

  /** The sign, if any, is the first character and the rest are digits. */
  predicate WellFormedInt(s: string)
  {
    && |s| >= 1
    && var body := if s[0] == '+' || s[0] == '-' then s[1..] else s;
       |body| >= 1 && AllDigits(body)
  }

  /** The value a well-formed spelling denotes, before any range check. */
  function SpelledValue(s: string): int
    requires WellFormedInt(s)
  {
    if s[0] == '-' then -(DigitsValue(s[1..]) as int)
    else if s[0] == '+' then DigitsValue(s[1..])
    else DigitsValue(s)
  }

  const MaxUint64: int := 0xFFFF_FFFF_FFFF_FFFF

  /** The spelling without its sign character, if it has one. */
  function Unsigned(s: string): string
  {
    if |s| >= 1 && (s[0] == '+' || s[0] == '-') then s[1..] else s
  }

  /** The length of the run of digits that starts the string. */
  function DigitRun(s: string): (k: nat)
    ensures k <= |s| && AllDigits(s[..k])
    ensures k < |s| ==> !IsDigit(s[k])
  {
    if |s| == 0 || !IsDigit(s[0]) then 0
    else
      var k := 1 + DigitRun(s[1..]);
      assert forall j :: 1 <= j < k ==> s[..k][j] == s[1..][..k - 1][j - 1];
      k
  }

  /** `strconv.ParseUint` scans left to right and reports a range error at
      the first digit that takes the value past 64 bits, before it looks at
      any later character: the leading digits already overflow. */
  predicate LeadingDigitsOverflow(s: string)
  {
    var body := Unsigned(s);
    DigitsValue(body[..DigitRun(body)]) > MaxUint64
  }

  /** `strconv.Atoi` with base 10 on a 64-bit platform: an optional sign and
      at least one decimal digit, nothing else (no spaces, no underscores, no
      base prefix), and a value that fits in `int`. A range error wins over a
      syntax error when the leading digits overflow before the bad character. */
  function Atoi(s: string): (r: Result<int>)
    ensures r.Ok? <==> WellFormedInt(s) && InInt64(SpelledValue(s))
    ensures r.Ok? ==> r.value == SpelledValue(s)
    ensures r.Err? ==> r.error == SyntaxError || r.error == RangeError
    ensures r.Err? && !WellFormedInt(s) ==>
      (r.error == RangeError <==> |s| >= 1 && LeadingDigitsOverflow(s))
    ensures r.Err? && WellFormedInt(s) ==> r.error == RangeError
  {
    if |s| == 0 then Err(SyntaxError)
    else
      var negative := s[0] == '-';
      var digits := Unsigned(s);
      var k := DigitRun(digits);
      assert AllDigits(digits) ==> k == |digits| && digits[..k] == digits;
      if |digits| == 0 then Err(SyntaxError)
      else if DigitsValue(digits[..k]) > MaxUint64 then Err(RangeError)
      else if k < |digits| then Err(SyntaxError)
      else
        assert digits[..k] == digits;
        var magnitude := DigitsValue(digits);
        var n: int := if negative then -(magnitude as int) else magnitude;
        if !InInt64(n) then Err(RangeError) else Ok(n)
  }

  /** Ten to the power `e`. */
  function Pow10(e: nat): nat
  {
    if e == 0 then 1 else 10 * Pow10(e - 1)
  }

  /** A digit string is worth at least its first digit times its place. */
  lemma {:induction false} DigitsValueLowerBound(s: string)
    requires |s| >= 1 && AllDigits(s)
    ensures DigitsValue(s) >= (s[0] as int - '0' as int) * Pow10(|s| - 1)
  {
    if |s| > 1 {
      var front := s[..|s| - 1];
      assert front[0] == s[0];
      DigitsValueLowerBound(front);
      var d := s[0] as int - '0' as int;
      assert DigitsValue(s) >= 10 * DigitsValue(front);
      assert 10 * (d * Pow10(|front| - 1)) == d * Pow10(|s| - 1);
    }
  }

  /** The digit run of digits followed by a non-digit is the digits. */
  lemma DigitRunStopsAtJunk(digits: string, junk: string)
    requires AllDigits(digits)
    requires |junk| >= 1 && !IsDigit(junk[0])
    ensures DigitRun(digits + junk) == |digits|
    ensures (digits + junk)[..|digits|] == digits
    ensures !AllDigits(digits + junk)
  {
    var s := digits + junk;
    assert forall j :: 0 <= j < |digits| ==> IsDigit(s[j]);
    assert !IsDigit(s[|digits|]);
  }

  /** Digits that already overflow followed by any non-digit: a range
      error, as `ParseUint` reports it before reaching the bad character. */
  lemma OverflowBeforeJunk(digits: string, junk: string)
    requires |digits| >= 1 && AllDigits(digits) && DigitsValue(digits) > MaxUint64
    requires |junk| >= 1 && !IsDigit(junk[0])
    ensures Atoi(digits + junk) == Err(RangeError)
  {
    var s := digits + junk;
    DigitRunStopsAtJunk(digits, junk);
    assert s[0] == digits[0];
    assert Unsigned(s) == s;
    assert LeadingDigitsOverflow(s);
    assert !WellFormedInt(s);
  }

  /** Twenty nines then "x": a range error, not a syntax error. */
  lemma TwentyNinesThenJunk()
    ensures Atoi("99999999999999999999x") == Err(RangeError)
  {
    var digits := "99999999999999999999";
    assert |digits| == 20;
    assert AllDigits(digits);
    DigitsValueLowerBound(digits);
    assert Pow10(1) == 10;
    assert Pow10(2) == 100;
    assert Pow10(3) == 1000;
    assert Pow10(4) == 10000;
    assert Pow10(5) == 100000;
    assert Pow10(6) == 1000000;
    assert Pow10(7) == 10000000;
    assert Pow10(8) == 100000000;
    assert Pow10(9) == 1000000000;
    assert Pow10(10) == 10000000000;
    assert Pow10(11) == 100000000000;
    assert Pow10(12) == 1000000000000;
    assert Pow10(13) == 10000000000000;
    assert Pow10(14) == 100000000000000;
    assert Pow10(15) == 1000000000000000;
    assert Pow10(16) == 10000000000000000;
    assert Pow10(17) == 100000000000000000;
    assert Pow10(18) == 1000000000000000000;
    assert Pow10(19) == 10000000000000000000;
    OverflowBeforeJunk(digits, "x");
    assert digits + "x" == "99999999999999999999x";
  }

  /** Reading back a decimal spelling gives the number. */
  lemma {:induction false} DigitsOfNat(n: nat)
    ensures DigitsValue(NatToDecimal(n)) == n
  {
    if n >= 10 {
      var s := NatToDecimal(n);
      assert s[..|s| - 1] == NatToDecimal(n / 10);
      DigitsOfNat(n / 10);
    }
  }

  /** `Atoi` inverts `Itoa` on every 64-bit integer. */
  lemma AtoiOfDecimal(n: int)
    requires InInt64(n)
    ensures Atoi(IntToDecimal(n)) == Ok(n)
  {
    DecimalSpellsItself(n);
  }

  /** The decimal spelling of an integer is well formed and denotes it. */
  lemma DecimalSpellsItself(n: int)
    ensures WellFormedInt(IntToDecimal(n)) && SpelledValue(IntToDecimal(n)) == n
  {
    if n < 0 {
      DigitsOfNat(-n);
      assert ("-" + NatToDecimal(-n))[1..] == NatToDecimal(-n);
    } else {
      DigitsOfNat(n);
      var s := NatToDecimal(n);
      assert IsDigit(s[0]);
    }
  }

  /** `getEnvAsInt`: the default for an empty value or one `Atoi` rejects. */
  function GetEnvAsInt(env: Env, key: string, default: int): (r: int)
    ensures Getenv(env, key) == "" ==> r == default
    ensures Atoi(Getenv(env, key)).Err? ==> r == default
    ensures Atoi(Getenv(env, key)).Ok? ==> r == Atoi(Getenv(env, key)).value
  {
    var valueStr := GetEnv(env, key, "");
    if valueStr == "" then default
    else
      match Atoi(valueStr)
      case Err(_) => default
      case Ok(value) => value
  }

  /** A variable holding the decimal spelling of a 64-bit integer yields it. */
  lemma GetEnvAsIntOfDecimal(env: Env, key: string, default: int, n: int)
    requires InInt64(n)
    requires key in env && env[key] == IntToDecimal(n)
    ensures GetEnvAsInt(env, key, default) == n
  {
    AtoiOfDecimal(n);
  }

  /** `Config`. */
  datatype Config = Config(
    discordToken: string,
    commandPrefix: string,
    ttsLanguage: string,
    ttsVoice: string,
    queueSize: int,
    queueTimeoutSec: int,
    audioQuality: string,
    logLevel: int)

  /** The integer a variable configures: its parsed value when `Atoi`
      accepts it, the default otherwise. */
  function IntSetting(env: Env, key: string, default: int): int
  {
    if Atoi(Getenv(env, key)).Ok? then Atoi(Getenv(env, key)).value else default
  }

  /** `LoadConfig`: each field read from its variable, with the defaults
      "!", "en", 100, 60, "medium" and 1; the token and voice default to empty. */
  function LoadConfig(env: Env): (r: Config)
    ensures r.discordToken == Getenv(env, "DISCORD_TOKEN")
    ensures r.ttsVoice == Getenv(env, "TTS_VOICE")
    ensures r.commandPrefix == (if Getenv(env, "COMMAND_PREFIX") == "" then "!" else Getenv(env, "COMMAND_PREFIX"))
    ensures r.ttsLanguage == (if Getenv(env, "TTS_LANGUAGE") == "" then "en" else Getenv(env, "TTS_LANGUAGE"))
    ensures r.audioQuality == (if Getenv(env, "AUDIO_QUALITY") == "" then "medium" else Getenv(env, "AUDIO_QUALITY"))
    ensures r.queueSize == IntSetting(env, "QUEUE_SIZE", 100)
    ensures r.queueTimeoutSec == IntSetting(env, "QUEUE_TIMEOUT_SECONDS", 60)
    ensures r.logLevel == IntSetting(env, "LOG_LEVEL", 1)
  {
    Config(
      GetEnv(env, "DISCORD_TOKEN", ""),
      GetEnv(env, "COMMAND_PREFIX", "!"),
      GetEnv(env, "TTS_LANGUAGE", "en"),
      GetEnv(env, "TTS_VOICE", ""),
      GetEnvAsInt(env, "QUEUE_SIZE", 100),
      GetEnvAsInt(env, "QUEUE_TIMEOUT_SECONDS", 60),
      GetEnv(env, "AUDIO_QUALITY", "medium"),
      GetEnvAsInt(env, "LOG_LEVEL", 1))
  }

  /** With nothing set every field takes its default. */
  lemma LoadConfigDefaults()
    ensures LoadConfig(map[]) == Config("", "!", "en", "", 100, 60, "medium", 1)
  {
  }

  /** Each field is read from its own variable only. */
  lemma LoadConfigLocal(e1: Env, e2: Env)
    ensures Getenv(e1, "DISCORD_TOKEN") == Getenv(e2, "DISCORD_TOKEN") ==>
      LoadConfig(e1).discordToken == LoadConfig(e2).discordToken
    ensures Getenv(e1, "COMMAND_PREFIX") == Getenv(e2, "COMMAND_PREFIX") ==>
      LoadConfig(e1).commandPrefix == LoadConfig(e2).commandPrefix
    ensures Getenv(e1, "TTS_LANGUAGE") == Getenv(e2, "TTS_LANGUAGE") ==>
      LoadConfig(e1).ttsLanguage == LoadConfig(e2).ttsLanguage
    ensures Getenv(e1, "TTS_VOICE") == Getenv(e2, "TTS_VOICE") ==>
      LoadConfig(e1).ttsVoice == LoadConfig(e2).ttsVoice
    ensures Getenv(e1, "QUEUE_SIZE") == Getenv(e2, "QUEUE_SIZE") ==>
      LoadConfig(e1).queueSize == LoadConfig(e2).queueSize
    ensures Getenv(e1, "QUEUE_TIMEOUT_SECONDS") == Getenv(e2, "QUEUE_TIMEOUT_SECONDS") ==>
      LoadConfig(e1).queueTimeoutSec == LoadConfig(e2).queueTimeoutSec
    ensures Getenv(e1, "AUDIO_QUALITY") == Getenv(e2, "AUDIO_QUALITY") ==>
      LoadConfig(e1).audioQuality == LoadConfig(e2).audioQuality
    ensures Getenv(e1, "LOG_LEVEL") == Getenv(e2, "LOG_LEVEL") ==>
      LoadConfig(e1).logLevel == LoadConfig(e2).logLevel
  {
  }
}
