/**
 * The small text and flag rules around the queue: the sentence handed to
 * speech synthesis, the OBS counter text, the Discord enabled flag and its
 * short-circuit, and the defaults of the `/add_donation` request body.
 */
module Display {
  import opened Wrappers
  import opened Config
  import Ledger

  // ---------------------------------------------------------------------
  // Speech text (`TTSManager.generate_and_play_tts`)
  // ---------------------------------------------------------------------

  /** `f"{username} said {text}"`: the name, then " said ", then the text. */
  function TtsText(username: string, text: string): (r: string)
    ensures |r| == |username| + 6 + |text|
    ensures r[..|username|] == username
    ensures r[|username|..|username| + 6] == " said "
    ensures r[|username| + 6..] == text
  {
    username + " said " + text
  }

  // ---------------------------------------------------------------------
  // Decimal numerals (`str(int)`)
  // ---------------------------------------------------------------------

  predicate IsDigit(c: char)
  {
    '0' <= c <= '9'
  }

  predicate AllDigits(s: string)
  {
    forall i :: 0 <= i < |s| ==> IsDigit(s[i])
  }

  function DigitChar(d: nat): (c: char)
    requires d < 10
    ensures IsDigit(c) && (c as int) - ('0' as int) == d
  {
    (('0' as int) + d) as char
  }

  /** The decimal numeral of a natural number, no leading zeros. */
  function Decimal(n: nat): (s: string)
    ensures |s| >= 1 && AllDigits(s)
    ensures |s| > 1 ==> s[0] != '0'
  {
    if n < 10 then [DigitChar(n)] else Decimal(n / 10) + [DigitChar(n % 10)]
  }

  /** The value of a string of decimal digits. */
  function DecimalValue(s: string): nat
    requires AllDigits(s)
  {
    if s == [] then 0
    else DecimalValue(s[..|s| - 1]) * 10 + ((s[|s| - 1] as int) - ('0' as int))
  }

  /** Reading back a numeral gives the number. */
  lemma {:induction false} DecimalRoundTrip(n: nat)
    ensures DecimalValue(Decimal(n)) == n
  {
    if n >= 10 {
      DecimalRoundTrip(n / 10);
      var s := Decimal(n);
      assert s[..|s| - 1] == Decimal(n / 10);
    }
  }

  /** `str(i)` for any integer. */
  function IntText(i: int): (s: string)
    ensures |s| >= 1 && '/' !in s
  {
    if i < 0 then "-" + Decimal(-i) else Decimal(i)
  }

  /** `int(s)` for an optional minus sign followed by digits. */
  function ParseInt(s: string): Option<int>
  {
    if |s| >= 2 && s[0] == '-' && AllDigits(s[1..]) then Some(-(DecimalValue(s[1..]) as int))
    else if |s| >= 1 && AllDigits(s) then Some(DecimalValue(s))
    else None
  }

  lemma IntTextRoundTrip(i: int)
    ensures ParseInt(IntText(i)) == Some(i)
  {
    var s := IntText(i);
    if i < 0 {
      assert s[1..] == Decimal(-i);
      DecimalRoundTrip(-i);
    } else {
      assert s == Decimal(i) && IsDigit(s[0]);
      DecimalRoundTrip(i);
    }
  }

  // ---------------------------------------------------------------------
  // OBS counter (`OBSManager.update_queue_display`)
  // ---------------------------------------------------------------------

  /** `f"Queue: {processed}/{processed + in_queue}"` */
  function QueueText(stats: Ledger.Stats): (text: string)
    ensures ParseQueueText(text) ==
            Some((stats.totalProcessed, stats.totalProcessed + stats.totalInQueue))
  {
    var done := stats.totalProcessed;
    var total := stats.totalProcessed + stats.totalInQueue;
    ParseQueueTextSplits(IntText(done), IntText(total));
    IntTextRoundTrip(done);
    IntTextRoundTrip(total);
    "Queue: " + IntText(done) + "/" + IntText(total)
  }

  /** The position of the first `c` in `s`. */
  function FirstIndex(s: string, c: char): (k: nat)
    requires c in s
    ensures k < |s| && s[k] == c && c !in s[..k]
  {
    if s[0] == c then 0 else 1 + FirstIndex(s[1..], c)
  }

  /** The first `c` after a prefix free of `c` is the one right after it. */
  lemma {:induction false} FirstIndexAfter(a: string, c: char, b: string)
    requires c !in a
    ensures FirstIndex(a + [c] + b, c) == |a|
  {
    if a != [] {
      assert (a + [c] + b)[1..] == a[1..] + [c] + b;
      FirstIndexAfter(a[1..], c, b);
    }
  }

  /** Reads the two numbers back from a counter text. */
  function ParseQueueText(s: string): Option<(int, int)>
  {
    if |s| < 7 || s[..7] != "Queue: " || '/' !in s[7..] then None
    else
      var body := s[7..];
      var k := FirstIndex(body, '/');
      match (ParseInt(body[..k]), ParseInt(body[k + 1..]))
      case (Some(done), Some(total)) => Some((done, total))
      case _ => None
  }

  /** A counter text splits at its first slash. */
  lemma ParseQueueTextSplits(a: string, b: string)
    requires '/' !in a
    ensures ParseQueueText("Queue: " + a + "/" + b) ==
            match (ParseInt(a), ParseInt(b))
            case (Some(done), Some(total)) => Some((done, total))
            case _ => None
  {
    var body := a + "/" + b;
    var s := "Queue: " + a + "/" + b;
    assert s == "Queue: " + body;
    assert s[..7] == "Queue: " && s[7..] == body;
    assert body[|a|] == '/';
    FirstIndexAfter(a, '/', b);
    assert body[..|a|] == a && body[|a| + 1..] == b;
  }

  // ---------------------------------------------------------------------
  // Discord (`DiscordManager.__init__`, `DiscordManager.send_message`)
  // ---------------------------------------------------------------------

  /** Python's truth value of a JSON value. */
  predicate Truthy(v: Json)
  {
    match v
    case Null => false
    case Bool(b) => b
    case Int(i) => i != 0
    case Num(r) => r != 0.0
    case Str(s) => s != ""
    case Arr(e) => e != []
    case Obj(m) => m != map[]
  }

  /** `config.get('discord.enabled', True) and bool(webhook_url)`, read as
      the truth value `send_message` tests. */
  function DiscordEnabled(config: Json): (enabled: bool)
    ensures enabled <==>
              && Truthy(Find(config, ["discord", "enabled"]).GetOr(Bool(true)))
              && Truthy(Find(config, ["discord", "webhook_url"]).GetOr(Str("")))
  {
    DiscordLookups(config);
    Truthy(Lookup(config, "discord.enabled", Bool(true))) &&
    Truthy(Lookup(config, "discord.webhook_url", Str("")))
  }

  /** The two dotted paths the notifier reads, as key sequences. */
  lemma DiscordLookups(c: Json)
    ensures Lookup(c, "discord.enabled", Bool(true)) == Find(c, ["discord", "enabled"]).GetOr(Bool(true))
    ensures Lookup(c, "discord.webhook_url", Str("")) == Find(c, ["discord", "webhook_url"]).GetOr(Str(""))
  {
    LookupJoined(c, ["discord", "enabled"], Bool(true));
    assert Join(["discord", "enabled"], '.') == "discord.enabled";
    LookupJoined(c, ["discord", "webhook_url"], Str(""));
    assert Join(["discord", "webhook_url"], '.') == "discord.webhook_url";
  }

  /** The configuration loaded from a file that sets only the webhook URL. */
  function UrlOnlyConfig(url: string): Json
  {
    LoadConfig(Some(Obj(map["discord" := Obj(map["webhook_url" := Str(url)])])))
  }

  lemma UrlOnlyWebhook(url: string)
    ensures Find(UrlOnlyConfig(url), ["discord", "webhook_url"]) == Some(Str(url))
  {
    var inner := map["webhook_url" := Str(url)];
    var file := map["discord" := Obj(inner)];
    assert Find(Str(url), []) == Some(Str(url));
    assert Find(Obj(inner), ["webhook_url"]) == Some(Str(url));
    assert ["discord", "webhook_url"][1..] == ["webhook_url"];
    assert Find(Obj(file), ["discord", "webhook_url"]) == Some(Str(url));
    FindMergedUpdateWins(DefaultConfig(), file, ["discord", "webhook_url"], Str(url));
  }

  lemma UrlOnlyEnabled(url: string)
    ensures Find(UrlOnlyConfig(url), ["discord", "enabled"]) == Some(Bool(true))
  {
    var file := map["discord" := Obj(map["webhook_url" := Str(url)])];
    assert Find(Obj(DefaultConfig()), ["discord", "enabled"]) == Some(Bool(true));
    assert Misses(file, ["discord", "enabled"]);
    FindMergedKeepsBase(DefaultConfig(), file, ["discord", "enabled"], Bool(true));
  }

  /** With a configuration file that sets a non-empty webhook URL under
      "discord" and leaves "enabled" out, the notifier is enabled: the
      default `enabled` of True survives the merge. */
  lemma DiscordEnabledByUrl(url: string)
    requires url != ""
    ensures DiscordEnabled(UrlOnlyConfig(url))
  {
    var c := UrlOnlyConfig(url);
    UrlOnlyWebhook(url);
    UrlOnlyEnabled(url);
    assert Truthy(Find(c, ["discord", "enabled"]).GetOr(Bool(true)));
    assert Truthy(Find(c, ["discord", "webhook_url"]).GetOr(Str("")));
  }

  /** Without a configuration file the webhook URL is the default empty
      string, so the notifier is disabled. */
  lemma DiscordDisabledByDefault(c: Json)
    requires c == LoadConfig(None)
    ensures !DiscordEnabled(c)
  {
    assert c == Obj(DefaultConfig());
    assert Find(c, ["discord", "webhook_url"]) == Some(Str(""));
  }

  /** What `send_message` returns: True without sending when disabled,
      otherwise whether the webhook answered 200 (None: the request raised). */
  function DiscordSendResult(enabled: bool, status: Option<int>): (sent: bool)
    ensures !enabled ==> sent
    ensures enabled ==> (sent <==> status == Some(200))
  {
    !enabled || status == Some(200)
  }

  /** Without a configuration file every send reports success, whatever the
      webhook would have answered. */
  lemma DefaultNeverSends(status: Option<int>)
    ensures DiscordSendResult(DiscordEnabled(LoadConfig(None)), status)
  {
    DiscordDisabledByDefault(LoadConfig(None));
  }

  /** With a configuration file that sets only a non-empty webhook URL, a
      send reports success exactly when the webhook answered 200. */
  lemma UrlConfigSends(url: string, status: Option<int>)
    requires url != ""
    ensures DiscordSendResult(DiscordEnabled(UrlOnlyConfig(url)), status) <==> status == Some(200)
  {
    DiscordEnabledByUrl(url);
  }

  // ---------------------------------------------------------------------
  // `/add_donation` request body
  // ---------------------------------------------------------------------

  datatype Donation = Donation(username: string, message: string, amount: real)

  /** The value of a string of digits read as a fraction after the point. */
  function Fraction(s: string): (r: real)
    requires AllDigits(s)
    ensures 0.0 <= r
  {
    if s == [] then 0.0
    else (((s[0] as int) - ('0' as int)) as real + Fraction(s[1..])) / 10.0
  }

  /** `float(s)` for the plain decimal forms: an optional sign, digits, and
      optionally a point with more digits, with a digit on at least one side
      of the point. */
  function ParseReal(s: string): Option<real>
  {
    if |s| >= 1 && (s[0] == '-' || s[0] == '+') then
      match ParseUnsignedReal(s[1..])
      case Some(v) => Some(if s[0] == '-' then -v else v)
      case None => None
    else ParseUnsignedReal(s)
  }

  function ParseUnsignedReal(s: string): Option<real>
  {
    if '.' in s then
      var k := FirstIndex(s, '.');
      var whole, frac := s[..k], s[k + 1..];
      if (|whole| >= 1 || |frac| >= 1) && AllDigits(whole) && AllDigits(frac)
      then Some(DecimalValue(whole) as real + Fraction(frac))
      else None
    else if |s| >= 1 && AllDigits(s) then Some(DecimalValue(s) as real)
    else None
  }

  /** An integer numeral reads as that number. */
  lemma ParseRealOfInt(i: int)
    ensures ParseReal(IntText(i)) == Some(i as real)
  {
    var s := IntText(i);
    if i < 0 {
      assert s[1..] == Decimal(-i);
      assert '.' !in s[1..] by { assert AllDigits(s[1..]); }
      DecimalRoundTrip(-i);
    } else {
      assert s == Decimal(i) && IsDigit(s[0]) && '.' !in s;
      DecimalRoundTrip(i);
    }
  }

  /** `float(value)` for a JSON value: numbers and booleans convert, strings
      are parsed, anything else raises. */
  function ToFloat(v: Json): (r: Option<real>)
    ensures v.Int? ==> r == Some(v.i as real)
    ensures v.Num? ==> r == Some(v.r)
    ensures v.Bool? ==> r == Some(if v.b then 1.0 else 0.0)
    ensures v.Null? || v.Arr? || v.Obj? ==> r.None?
  {
    match v
    case Int(i) => Some(i as real)
    case Num(r) => Some(r)
    case Bool(b) => Some(if b then 1.0 else 0.0)
    case Str(s) => ParseReal(s)
    case _ => None
  }

  /** A text field of the request, its default when absent. */
  function TextField(fields: map<string, Json>, key: string, default: string): (r: Option<string>)
    ensures key !in fields ==> r == Some(default)
    ensures key in fields ==> (r.Some? <==> fields[key].Str?)
    ensures key in fields && r.Some? ==> fields[key] == Str(r.value)
  {
    if key !in fields then Some(default)
    else if fields[key].Str? then Some(fields[key].s)
    else None
  }

  /** The donation `add_donation` builds from the request body: username
      "Anonymous", message "" and amount 0.0 when absent. A body that is not
      an object, or an amount `float` rejects, is an error. */
  function ParseDonation(body: Json): (r: Result<Donation, string>)
    ensures !body.Obj? ==> r.Err?
    ensures r.Ok? ==> ("username" !in body.fields ==> r.value.username == "Anonymous")
    ensures r.Ok? ==> ("message" !in body.fields ==> r.value.message == "")
    ensures r.Ok? ==> ("amount" !in body.fields ==> r.value.amount == 0.0)
    ensures r.Ok? && "username" in body.fields ==> body.fields["username"] == Str(r.value.username)
    ensures r.Ok? && "message" in body.fields ==> body.fields["message"] == Str(r.value.message)
    ensures r.Ok? && "amount" in body.fields ==> ToFloat(body.fields["amount"]) == Some(r.value.amount)
    ensures body.Obj?
            && ("username" in body.fields ==> body.fields["username"].Str?)
            && ("message" in body.fields ==> body.fields["message"].Str?)
            && ("amount" in body.fields ==> ToFloat(body.fields["amount"]).Some?)
            ==> r.Ok?
  {
    if !body.Obj? then Err("request body is not an object")
    else
      var f := body.fields;
      match (TextField(f, "username", "Anonymous"), TextField(f, "message", ""),
             ToFloat(if "amount" in f then f["amount"] else Num(0.0)))
      case (Some(u), Some(m), Some(a)) => Ok(Donation(u, m, a))
      case _ => Err("malformed donation")
  }

  /** An empty body is accepted with every default. */
  lemma ParseDonationDefaults()
    ensures ParseDonation(Obj(map[])) == Ok(Donation("Anonymous", "", 0.0))
  {
  }

  /** A body with string fields and a numeric amount is accepted as given. */
  lemma ParseDonationAccepts(username: string, message: string, amount: real)
    ensures ParseDonation(Obj(map["username" := Str(username), "message" := Str(message), "amount" := Num(amount)]))
            == Ok(Donation(username, message, amount))
  {
  }
}
