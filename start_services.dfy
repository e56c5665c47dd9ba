/** start-services.py: one instance configuration per customer of
    `Clients.json`, the placeholder substitution applied to the compose and
    Grafana templates, the instance paths, and the random secrets. */
module StartServices {
  import opened Results
  import opened Json
  import opened Strings

  // ---------------------------------------------------------------------
  // generate_api_key

  /** Consecutive characters from `lo` to `hi`: each character of the range
      once, in ascending order. */
  function CharRange(lo: char, hi: char): (r: seq<char>)
    requires lo <= hi && hi as int < 0xD800
    ensures |r| == hi as int - lo as int + 1
    ensures forall ch :: ch in r <==> lo <= ch <= hi
    ensures forall i, j :: 0 <= i < j < |r| ==> r[i] < r[j]
  {
    var r := seq(hi as int - lo as int + 1, k requires 0 <= k <= hi as int - lo as int => (lo as int + k) as char);
    ConsecutiveMembers(lo, hi, r);
    r
  }

  /** A run of consecutive characters holds exactly the characters between
      its ends. */
  lemma ConsecutiveMembers(lo: char, hi: char, r: seq<char>)
    requires lo <= hi && |r| == hi as int - lo as int + 1
    requires forall k :: 0 <= k < |r| ==> r[k] as int == lo as int + k
    ensures forall ch :: ch in r <==> lo <= ch <= hi
  {
    forall ch | lo <= ch <= hi
      ensures ch in r
    {
      assert r[ch as int - lo as int] == ch;
    }
  }

  /** `string.ascii_letters + string.digits`. */
  const Alphabet: seq<char> := CharRange('a', 'z') + CharRange('A', 'Z') + CharRange('0', '9')

  predicate IsAlnum(c: char)
  {
    'a' <= c <= 'z' || 'A' <= c <= 'Z' || '0' <= c <= '9'
  }

  /** The alphabet is exactly the 62 ASCII letters and digits. */
  lemma AlphabetIsAlnum()
    ensures |Alphabet| == 62
    ensures forall c :: c in Alphabet <==> IsAlnum(c)
  {
    var lower, upper, digits := CharRange('a', 'z'), CharRange('A', 'Z'), CharRange('0', '9');
    assert Alphabet == lower + upper + digits;
    forall c
      ensures c in Alphabet <==> IsAlnum(c)
    {
      assert c in Alphabet <==> c in lower || c in upper || c in digits;
    }
  }

  /** A valid secret of the given length. */
  predicate IsKey(key: string, length: nat)
  {
    |key| == length && forall i :: 0 <= i < |key| ==> IsAlnum(key[i])
  }

  /** `generate_api_key(length)`: `length` characters (none for a negative
      length, as `range` gives), each an arbitrary choice from the alphabet
      standing for `secrets.choice`. */
  method GenerateApiKey(length: int) returns (key: string)
    ensures IsKey(key, if length < 0 then 0 else length)
  {
    AlphabetIsAlnum();
    key := "";
    var n := 0;
    while n < length
      invariant n == |key| <= (if length < 0 then 0 else length)
      invariant IsKey(key, n)
    {
      assert Alphabet[0] in Alphabet;
      var c :| c in Alphabet;
      key := key + [c];
      n := n + 1;
    }
  }

  /** The four secrets `generate_config` draws for one customer. */
  datatype Secrets = Secrets(influxdbPw: string, influxdbToken: string, grafanaPw: string, postgresPw: string)

  /** What drawing the secrets with the default length guarantees. */
  predicate WellFormed(k: Secrets)
  {
    IsKey(k.influxdbPw, 32) && IsKey(k.influxdbToken, 32) && IsKey(k.grafanaPw, 32) && IsKey(k.postgresPw, 32)
  }

  /** The four `generate_api_key()` calls of `generate_config`, in order. */
  method DrawSecrets() returns (k: Secrets)
    ensures WellFormed(k)
  {
    var influxdbPw := GenerateApiKey(32);
    var influxdbToken := GenerateApiKey(32);
    var grafanaPw := GenerateApiKey(32);
    var postgresPw := GenerateApiKey(32);
    k := Secrets(influxdbPw, influxdbToken, grafanaPw, postgresPw);
  }

  // ---------------------------------------------------------------------
  // generate_config and get_clients

  /** `InstanceConfig`.  The values read from `Clients.json` keep their JSON
      type; nothing checks that they are strings. */
  datatype InstanceConfig = InstanceConfig(
    customerName: string,
    customerIndex: nat,
    influxdbPw: string,
    influxdbOrg: string,
    influxdbBucket: string,
    influxdbToken: string,
    grafanaPw: string,
    postgresPw: string,
    postgresDb: string,
    sentineloneUrl: Json,
    sentineloneApi: Json,
    sentineloneXdrApi: Json,
    merakiUrl: Json,
    merakiApi: Json)

  /** The arguments `get_clients` passes for one customer entry. */
  datatype Customer = Customer(name: Json, sentineloneUrl: Json, sentineloneApi: Json,
                               sentineloneXdrApi: Json, merakiUrl: Json, merakiApi: Json)

  /** `generate_config(...)`: `customer_name.lower()` raises unless the name
      is a string. */
  function GenerateConfig(c: Customer, customerIndex: nat, k: Secrets): (r: Result<InstanceConfig>)
    ensures r.Ok? <==> c.name.JStr?
    ensures r.Err? ==> r.error == TypeError
    ensures r.Ok? ==> (
      && r.value.customerName == Lower(c.name.s)
      && r.value.influxdbOrg == r.value.customerName
      && r.value.influxdbBucket == r.value.customerName
      && r.value.postgresDb == r.value.customerName)
    ensures r.Ok? ==> (
      && r.value.customerIndex == customerIndex
      && r.value.sentineloneUrl == c.sentineloneUrl && r.value.sentineloneApi == c.sentineloneApi
      && r.value.sentineloneXdrApi == c.sentineloneXdrApi
      && r.value.merakiUrl == c.merakiUrl && r.value.merakiApi == c.merakiApi)
    ensures r.Ok? ==> (
      && r.value.influxdbPw == k.influxdbPw && r.value.influxdbToken == k.influxdbToken
      && r.value.grafanaPw == k.grafanaPw && r.value.postgresPw == k.postgresPw)
  {
    match c.name
    case JStr(name) =>
      var customerId := Lower(name);
      Ok(InstanceConfig(customerId, customerIndex, k.influxdbPw, customerId, customerId, k.influxdbToken,
                        k.grafanaPw, k.postgresPw, customerId, c.sentineloneUrl, c.sentineloneApi,
                        c.sentineloneXdrApi, c.merakiUrl, c.merakiApi))
    case _ => Err(TypeError)
  }

  /** `customer.get(...)` for each argument; the Meraki fields default to ""
      when the key is absent. */
  function CustomerOf(entry: Json): (r: Result<Customer>)
    ensures r.Ok? <==> entry.JObj?
    ensures r.Ok? ==> r.value.name == (if "customer_name" in entry.fields then entry.fields["customer_name"] else JNull)
    ensures r.Ok? ==> r.value.sentineloneUrl == Get(entry.fields, "sentinelone_url")
    ensures r.Ok? ==> r.value.sentineloneApi == Get(entry.fields, "sentinelone_api")
    ensures r.Ok? ==> r.value.sentineloneXdrApi == Get(entry.fields, "sentinelone_xdr_api")
    ensures r.Ok? ==> r.value.merakiUrl == (if "meraki_url" in entry.fields then entry.fields["meraki_url"] else JStr(""))
    ensures r.Ok? ==> r.value.merakiApi == (if "meraki_api" in entry.fields then entry.fields["meraki_api"] else JStr(""))
  {
    match entry
    case JObj(m) =>
      Ok(Customer(Get(m, "customer_name"), Get(m, "sentinelone_url"), Get(m, "sentinelone_api"),
                  Get(m, "sentinelone_xdr_api"),
                  if "meraki_url" in m then Get(m, "meraki_url") else JStr(""),
                  if "meraki_api" in m then Get(m, "meraki_api") else JStr("")))
    case _ => Err(TypeError)
  }

  /** `data.get('customers', [])` and the entries the loop visits. */
  function CustomerEntries(data: Json): (r: Result<seq<Json>>)
    ensures data.JObj? && "customers" !in data.fields ==> r == Ok([])
    ensures data.JObj? && "customers" in data.fields && data.fields["customers"].JArr? ==>
      r == Ok(data.fields["customers"].items)
    ensures !data.JObj? ==> r.Err?
  {
    var customers :- DictGet(data, "customers", JArr([]));
    Elements(customers)
  }

  /** The secrets of the `i`-th customer when that many were drawn.  A
      customer whose configuration fails draws none, and its failure does not
      depend on them. */
  function SecretsAt(drawn: seq<Secrets>, i: nat): Secrets
  {
    if i < |drawn| then drawn[i] else Secrets("", "", "", "")
  }

  /** The list the loop of `get_clients` builds from the entries: each
      entry's arguments read, its configuration generated with
      `len(instance_configs)` as index, and appended; the first entry that
      fails decides the error. */
  function ConfigsFrom(entries: seq<Json>, drawn: seq<Secrets>): Result<seq<InstanceConfig>>
    decreases |entries|
  {
    if entries == [] then Ok([])
    else
      var prev :- ConfigsFrom(entries[..|entries| - 1], drawn);
      var customer :- CustomerOf(entries[|entries| - 1]);
      var config :- GenerateConfig(customer, |prev|, SecretsAt(drawn, |prev|));
      Ok(prev + [config])
  }

  /** What `get_clients()` returns for the parsed `Clients.json`, given the
      secrets drawn for its customers. */
  function Clients(data: Json, drawn: seq<Secrets>): Result<seq<InstanceConfig>>
  {
    var entries :- CustomerEntries(data);
    ConfigsFrom(entries, drawn)
  }

  /** An entry `get_clients` accepts: a dict whose `customer_name` is a string. */
  predicate Accepted(entry: Json)
  {
    entry.JObj? && "customer_name" in entry.fields && entry.fields["customer_name"].JStr?
  }

  /** The list succeeds exactly when every entry is accepted. */
  lemma {:induction false} ConfigsAccepted(entries: seq<Json>, drawn: seq<Secrets>)
    ensures ConfigsFrom(entries, drawn).Ok? <==> forall i :: 0 <= i < |entries| ==> Accepted(entries[i])
    decreases |entries|
  {
    if entries != [] {
      var init := entries[..|entries| - 1];
      ConfigsAccepted(init, drawn);
      assert forall i :: 0 <= i < |init| ==> init[i] == entries[i];
      if ConfigsFrom(init, drawn).Err? {
        var i :| 0 <= i < |init| && !Accepted(init[i]);
        assert !Accepted(entries[i]);
      }
    }
  }

  /** A successful list has one configuration per entry: the `i`-th is what
      `generate_config` makes of the `i`-th entry with index `i`, so the
      indices are 0, 1, 2, … in list order. */
  lemma {:induction false} ConfigsIndexed(entries: seq<Json>, drawn: seq<Secrets>)
    ensures ConfigsFrom(entries, drawn).Ok? ==> (
      && |ConfigsFrom(entries, drawn).value| == |entries|
      && forall i :: 0 <= i < |entries| ==> (
           && Accepted(entries[i])
           && ConfigsFrom(entries, drawn).value[i]
                == GenerateConfig(CustomerOf(entries[i]).value, i, SecretsAt(drawn, i)).value
           && ConfigsFrom(entries, drawn).value[i].customerIndex == i))
    decreases |entries|
  {
    var r := ConfigsFrom(entries, drawn);
    if entries != [] && r.Ok? {
      var init := entries[..|entries| - 1];
      ConfigsIndexed(init, drawn);
      var prev := ConfigsFrom(init, drawn).value;
      forall i | 0 <= i < |entries|
        ensures Accepted(entries[i])
        ensures r.value[i] == GenerateConfig(CustomerOf(entries[i]).value, i, SecretsAt(drawn, i)).value
      {
        if i < |prev| {
          assert r.value[i] == prev[i] && init[i] == entries[i];
        }
      }
    }
  }

  /** Customer indices are pairwise distinct. */
  lemma IndicesDistinct(data: Json, drawn: seq<Secrets>)
    requires Clients(data, drawn).Ok?
    ensures forall i, j :: 0 <= i < j < |Clients(data, drawn).value| ==>
      Clients(data, drawn).value[i].customerIndex != Clients(data, drawn).value[j].customerIndex
  {
    ConfigsIndexed(CustomerEntries(data).value, drawn);
  }

  /** A file without `customers` yields no configurations; a Meraki key
      absent from an entry becomes the empty string. */
  lemma ClientsDefaults(fields: map<string, Json>, entry: map<string, Json>, drawn: seq<Secrets>)
    ensures "customers" !in fields ==> Clients(JObj(fields), drawn) == Ok([])
    ensures Accepted(JObj(entry)) && "meraki_url" !in entry && "meraki_api" !in entry ==>
      Clients(JObj(map["customers" := JArr([JObj(entry)])]), drawn).Ok?
      && Clients(JObj(map["customers" := JArr([JObj(entry)])]), drawn).value[0].merakiUrl == JStr("")
      && Clients(JObj(map["customers" := JArr([JObj(entry)])]), drawn).value[0].merakiApi == JStr("")
  {
    ConfigsAccepted([JObj(entry)], drawn);
    ConfigsIndexed([JObj(entry)], drawn);
  }

  /** Secrets beyond the entries do not matter. */
  lemma {:induction false} ConfigsIgnoreLaterSecrets(entries: seq<Json>, d1: seq<Secrets>, d2: seq<Secrets>)
    requires forall k :: 0 <= k < |entries| ==> SecretsAt(d1, k) == SecretsAt(d2, k)
    ensures ConfigsFrom(entries, d1) == ConfigsFrom(entries, d2)
    decreases |entries|
  {
    if entries != [] {
      ConfigsIgnoreLaterSecrets(entries[..|entries| - 1], d1, d2);
      ConfigsIndexed(entries[..|entries| - 1], d1);
    }
  }

  /** Once a prefix of the entries fails, the whole list fails the same way. */
  lemma {:induction false} ConfigsErrPersists(entries: seq<Json>, drawn: seq<Secrets>, n: nat)
    requires n <= |entries| && ConfigsFrom(entries[..n], drawn).Err?
    ensures ConfigsFrom(entries, drawn) == ConfigsFrom(entries[..n], drawn)
    decreases |entries|
  {
    if n == |entries| {
      assert entries[..n] == entries;
    } else {
      var init := entries[..|entries| - 1];
      assert init[..n] == entries[..n];
      ConfigsErrPersists(init, drawn, n);
    }
  }

  /** One entry after a successful prefix: its failure ends the list with
      its error, and its success appends its configuration, indexed by the
      number of configurations before it. */
  lemma ConfigsStep(entries: seq<Json>, drawn: seq<Secrets>, i: nat)
    requires i < |entries| && ConfigsFrom(entries[..i], drawn).Ok?
    ensures CustomerOf(entries[i]).Err? ==> ConfigsFrom(entries, drawn) == Err(CustomerOf(entries[i]).error)
    ensures CustomerOf(entries[i]).Ok? && !CustomerOf(entries[i]).value.name.JStr? ==>
      ConfigsFrom(entries, drawn) == Err(TypeError)
    ensures CustomerOf(entries[i]).Ok? && CustomerOf(entries[i]).value.name.JStr? ==>
      ConfigsFrom(entries[..i + 1], drawn)
      == Ok(ConfigsFrom(entries[..i], drawn).value
            + [GenerateConfig(CustomerOf(entries[i]).value, i, SecretsAt(drawn, i)).value])
  {
    assert entries[..i + 1][..i] == entries[..i];
    ConfigsIndexed(entries[..i], drawn);
    if !Accepted(entries[i]) {
      ConfigsErrPersists(entries, drawn, i + 1);
    }
  }

  /** `get_clients()` on the parsed `Clients.json`: the loop that reads each
      customer entry and appends its configuration, with freshly drawn
      secrets; `drawn` lists the secrets the configurations received. */
  method GetClients(data: Json) returns (r: Result<seq<InstanceConfig>>, drawn: seq<Secrets>)
    ensures r == Clients(data, drawn)
    ensures r.Ok? ==> |drawn| == |r.value|
    ensures forall i :: 0 <= i < |drawn| ==> WellFormed(drawn[i])
  {
    drawn := [];
    var entries := CustomerEntries(data);
    if entries.Err? {
      return Err(entries.error), drawn;
    }
    var items := entries.value;
    var instanceConfigs: seq<InstanceConfig> := [];
    var i := 0;
    assert items[..0] == [];
    while i < |items|
      invariant 0 <= i <= |items|
      invariant ConfigsFrom(items[..i], drawn) == Ok(instanceConfigs)
      invariant |drawn| == |instanceConfigs| == i
      invariant forall k :: 0 <= k < |drawn| ==> WellFormed(drawn[k])
    {
      var customer := CustomerOf(items[i]);
      if customer.Err? {
        ConfigsStep(items, drawn, i);
        return Err(customer.error), drawn;
      }
      var secrets := DrawSecrets();
      var config := GenerateConfig(customer.value, |instanceConfigs|, secrets);
      if config.Err? {
        ConfigsStep(items, drawn, i);
        return Err(config.error), drawn;
      }
      ConfigsIgnoreLaterSecrets(items[..i], drawn, drawn + [secrets]);
      ConfigsStep(items, drawn + [secrets], i);
      instanceConfigs := instanceConfigs + [config.value];
      drawn := drawn + [secrets];
      i := i + 1;
    }
    assert items[..i] == items;
    return Ok(instanceConfigs), drawn;
  }

  // ---------------------------------------------------------------------
  // replace_variables

  /** The names of the placeholders `replace_variables` substitutes, in
      chain order. */
  const PlaceholderNames: seq<string> := [
    "INFLUXDB_PW", "INFLUXDB_ORG", "INFLUXDB_BUCKET", "INFLUXDB_TOKEN",
    "GRAFANA_PW", "POSTGRES_PW", "POSTGRES_DB", "SENTINELONE_URL",
    "SENTINELONE_API", "MERAKI_URL", "MERAKI_API", "influxdb_port",
    "postgres_port", "grafana_port"]

  /** `{{NAME}}`. */
  function Placeholder(name: string): string
  {
    "{{" + name + "}}"
  }

  const Placeholders: seq<string> := PlaceholdersOf(PlaceholderNames)

  function PlaceholdersOf(names: seq<string>): seq<string>
  {
    seq(|names|, k requires 0 <= k < |names| => Placeholder(names[k]))
  }

  /** `str(8086 + config.customer_index)` and the other two ports. */
  function InfluxPort(c: InstanceConfig): string { NatToString(8086 + c.customerIndex) }
  function PostgresPort(c: InstanceConfig): string { NatToString(5432 + c.customerIndex) }
  function GrafanaPort(c: InstanceConfig): string { NatToString(3000 + c.customerIndex) }

  /** The value each placeholder becomes. */
  function Values(c: InstanceConfig): (vs: seq<Json>)
    ensures |vs| == |Placeholders|
  {
    [JStr(c.influxdbPw), JStr(c.influxdbOrg), JStr(c.influxdbBucket), JStr(c.influxdbToken),
     JStr(c.grafanaPw), JStr(c.postgresPw), JStr(c.postgresDb), c.sentineloneUrl,
     c.sentineloneApi, c.merakiUrl, c.merakiApi, JStr(InfluxPort(c)),
     JStr(PostgresPort(c)), JStr(GrafanaPort(c))]
  }

  /** `s.replace(p0, v0).replace(p1, v1)...`; a value that is not a string
      makes `str.replace` raise. */
  function ReplaceChain(s: string, pats: seq<string>, vals: seq<Json>): Result<string>
    requires |pats| == |vals|
    decreases |pats|
  {
    if pats == [] then Ok(s)
    else
      match vals[0]
      case JStr(v) => ReplaceChain(ReplaceAll(s, pats[0], v), pats[1..], vals[1..])
      case _ => Err(TypeError)
  }

  /** `replace_variables(content, config)`. */
  function ReplaceVariables(content: string, c: InstanceConfig): Result<string>
  {
    ReplaceChain(content, Placeholders, Values(c))
  }

  /** The configuration values `str.replace` accepts: the text fields read
      from `Clients.json` that `replace_variables` uses are strings.  The XDR
      key is not among them. */
  predicate StringValued(c: InstanceConfig)
  {
    c.sentineloneUrl.JStr? && c.sentineloneApi.JStr? && c.merakiUrl.JStr? && c.merakiApi.JStr?
  }

  predicate DistinctPatterns(pats: seq<string>)
  {
    forall i, j :: 0 <= i < j < |pats| ==> pats[i] != pats[j]
  }

  /** The chain fails exactly when some value is not a string. */
  lemma {:induction false} ReplaceChainOk(s: string, pats: seq<string>, vals: seq<Json>)
    requires |pats| == |vals|
    ensures ReplaceChain(s, pats, vals).Ok? <==> forall k :: 0 <= k < |vals| ==> vals[k].JStr?
    ensures ReplaceChain(s, pats, vals).Err? ==> ReplaceChain(s, pats, vals).error == TypeError
    decreases |pats|
  {
    if pats != [] && vals[0].JStr? {
      ReplaceChainOk(ReplaceAll(s, pats[0], vals[0].s), pats[1..], vals[1..]);
      assert forall k :: 1 <= k < |vals| ==> vals[k] == vals[1..][k - 1];
    }
  }

  /** Text in which no pattern occurs comes back unchanged. */
  lemma {:induction false} ReplaceChainAbsent(s: string, pats: seq<string>, vals: seq<Json>)
    requires |pats| == |vals|
    requires forall k :: 0 <= k < |pats| ==> pats[k] != "" && !Occurs(pats[k], s)
    requires forall k :: 0 <= k < |vals| ==> vals[k].JStr?
    ensures ReplaceChain(s, pats, vals) == Ok(s)
    decreases |pats|
  {
    if pats != [] {
      ReplaceAllAbsent(s, pats[0], vals[0].s);
      ReplaceChainAbsent(s, pats[1..], vals[1..]);
    }
  }

  /** The `j`-th placeholder, occurring once between brace-free text, is
      replaced by the `j`-th value, provided that value has no braces either
      (so no later placeholder appears in it). */
  lemma {:induction false} ReplaceChainOne(a: string, b: string, pats: seq<string>, vals: seq<Json>, j: nat)
    requires |pats| == |vals| && j < |pats|
    requires forall k :: 0 <= k < |pats| ==> Token(pats[k])
    requires DistinctPatterns(pats)
    requires forall k :: 0 <= k < |vals| ==> vals[k].JStr?
    requires BraceFree(a) && BraceFree(b) && BraceFree(vals[j].s)
    ensures ReplaceChain(a + pats[j] + b, pats, vals) == Ok(a + vals[j].s + b)
    decreases |pats|
  {
    var p := pats[j];
    if j == 0 {
      TokenAbsentFromBraceFree(p, b);
      ReplaceAllOnce(a, p, b, vals[0].s);
      var t := a + vals[0].s + b;
      assert BraceFree(t);
      forall k | 0 <= k < |pats[1..]|
        ensures pats[1..][k] != "" && !Occurs(pats[1..][k], t)
      {
        TokenAbsentFromBraceFree(pats[1..][k], t);
      }
      ReplaceChainAbsent(t, pats[1..], vals[1..]);
    } else {
      OtherTokenAbsent(pats[0], a, p, b);
      ReplaceAllAbsent(a + p + b, pats[0], vals[0].s);
      assert pats[1..][j - 1] == p && vals[1..][j - 1] == vals[j];
      ReplaceChainOne(a, b, pats[1..], vals[1..], j - 1);
    }
  }

  lemma PlaceholderToken(name: string)
    requires BraceFree(name)
    ensures Token(Placeholder(name))
  {
    var p := Placeholder(name);
    assert p[2..|p| - 2] == name;
  }

  lemma PlaceholderInjective(m: string, n: string)
    requires m != n
    ensures Placeholder(m) != Placeholder(n)
  {
    var p, q := Placeholder(m), Placeholder(n);
    assert p[2..|p| - 2] == m && q[2..|q| - 2] == n;
  }

  lemma FirstNamesBraceFree(k: nat)
    requires 0 <= k < 7
    ensures BraceFree(PlaceholderNames[k])
  {
    if k == 0 {
      assert BraceFree("INFLUXDB_PW");
    } else if k == 1 {
      assert BraceFree("INFLUXDB_ORG");
    } else if k == 2 {
      assert BraceFree("INFLUXDB_BUCKET");
    } else if k == 3 {
      assert BraceFree("INFLUXDB_TOKEN");
    } else if k == 4 {
      assert BraceFree("GRAFANA_PW");
    } else if k == 5 {
      assert BraceFree("POSTGRES_PW");
    } else {
      assert BraceFree("POSTGRES_DB");
    }
  }

  lemma LastNamesBraceFree(k: nat)
    requires 7 <= k < 14
    ensures BraceFree(PlaceholderNames[k])
  {
    if k == 7 {
      assert BraceFree("SENTINELONE_URL");
    } else if k == 8 {
      assert BraceFree("SENTINELONE_API");
    } else if k == 9 {
      assert BraceFree("MERAKI_URL");
    } else if k == 10 {
      assert BraceFree("MERAKI_API");
    } else if k == 11 {
      assert BraceFree("influxdb_port");
    } else if k == 12 {
      assert BraceFree("postgres_port");
    } else {
      assert BraceFree("grafana_port");
    }
  }

  /** The fourteen placeholders are `{{NAME}}` tokens, pairwise distinct. */
  lemma PlaceholdersAreTokens()
    ensures |Placeholders| == 14
    ensures forall k :: 0 <= k < |Placeholders| ==> Token(Placeholders[k])
    ensures DistinctPatterns(Placeholders)
  {
    forall k | 0 <= k < |Placeholders|
      ensures Token(Placeholders[k])
    {
      if k < 7 {
        FirstNamesBraceFree(k);
      } else {
        LastNamesBraceFree(k);
      }
      PlaceholderToken(PlaceholderNames[k]);
    }
    assert forall i, j :: 0 <= i < j < |PlaceholderNames| ==> PlaceholderNames[i] != PlaceholderNames[j];
    forall i, j | 0 <= i < j < |Placeholders|
      ensures Placeholders[i] != Placeholders[j]
    {
      PlaceholderInjective(PlaceholderNames[i], PlaceholderNames[j]);
    }
  }

  /** `replace_variables` raises exactly when a value it substitutes is not
      a string. */
  lemma ReplaceVariablesFails(content: string, c: InstanceConfig)
    ensures ReplaceVariables(content, c).Ok? <==> StringValued(c)
  {
    var vs := Values(c);
    ReplaceChainOk(content, Placeholders, vs);
    ValuesFromConfig(c);
    if StringValued(c) {
      forall k | 0 <= k < |vs|
        ensures vs[k].JStr?
      {
        if 7 <= k <= 10 {
          assert k == 7 || k == 8 || k == 9 || k == 10;
        }
      }
    }
  }

  /** Only the URL, the API key and the two Meraki fields reach the chain
      without being strings already. */
  lemma ValuesFromConfig(c: InstanceConfig)
    ensures forall k :: 0 <= k < |Values(c)| && (k < 7 || 10 < k) ==> Values(c)[k].JStr?
    ensures Values(c)[7] == c.sentineloneUrl && Values(c)[8] == c.sentineloneApi
    ensures Values(c)[9] == c.merakiUrl && Values(c)[10] == c.merakiApi
  {
  }

  /** Content containing none of the placeholders is returned unchanged. */
  lemma ReplaceVariablesUnchanged(content: string, c: InstanceConfig)
    requires StringValued(c)
    requires forall k :: 0 <= k < |Placeholders| ==> !Occurs(Placeholders[k], content)
    ensures ReplaceVariables(content, c) == Ok(content)
  {
    PlaceholdersAreTokens();
    ReplaceChainAbsent(content, Placeholders, Values(c));
  }

  /** A single placeholder between brace-free text becomes its value. */
  lemma ReplaceVariablesOne(a: string, b: string, c: InstanceConfig, j: nat)
    requires StringValued(c) && j < |Placeholders|
    requires BraceFree(a) && BraceFree(b) && BraceFree(Values(c)[j].s)
    ensures ReplaceVariables(a + Placeholders[j] + b, c) == Ok(a + Values(c)[j].s + b)
  {
    PlaceholdersAreTokens();
    ReplaceChainOne(a, b, Placeholders, Values(c), j);
  }

  /** The port placeholders become `8086`, `5432` and `3000` plus the
      customer index, in decimal. */
  lemma InfluxPortSubstituted(a: string, b: string, c: InstanceConfig)
    requires StringValued(c) && BraceFree(a) && BraceFree(b)
    ensures ReplaceVariables(a + Placeholder("influxdb_port") + b, c) == Ok(a + InfluxPort(c) + b)
  {
    NatToStringBraceFree(8086 + c.customerIndex);
    ReplaceVariablesOne(a, b, c, 11);
  }

  lemma PostgresPortSubstituted(a: string, b: string, c: InstanceConfig)
    requires StringValued(c) && BraceFree(a) && BraceFree(b)
    ensures ReplaceVariables(a + Placeholder("postgres_port") + b, c) == Ok(a + PostgresPort(c) + b)
  {
    NatToStringBraceFree(5432 + c.customerIndex);
    ReplaceVariablesOne(a, b, c, 12);
  }

  lemma GrafanaPortSubstituted(a: string, b: string, c: InstanceConfig)
    requires StringValued(c) && BraceFree(a) && BraceFree(b)
    ensures ReplaceVariables(a + Placeholder("grafana_port") + b, c) == Ok(a + GrafanaPort(c) + b)
  {
    NatToStringBraceFree(3000 + c.customerIndex);
    ReplaceVariablesOne(a, b, c, 13);
  }

  /** The three port strings denote `8086`, `5432` and `3000` plus the
      customer index. */
  lemma PortValues(c: InstanceConfig)
    ensures DecimalValue(InfluxPort(c)) == 8086 + c.customerIndex
    ensures DecimalValue(PostgresPort(c)) == 5432 + c.customerIndex
    ensures DecimalValue(GrafanaPort(c)) == 3000 + c.customerIndex
  {
    NatToStringValue(8086 + c.customerIndex);
    NatToStringValue(5432 + c.customerIndex);
    NatToStringValue(3000 + c.customerIndex);
  }

  /** Customers with different indices get different ports, for each of
      the three services. */
  lemma PortsDistinct(c1: InstanceConfig, c2: InstanceConfig)
    requires c1.customerIndex != c2.customerIndex
    ensures InfluxPort(c1) != InfluxPort(c2)
    ensures PostgresPort(c1) != PostgresPort(c2)
    ensures GrafanaPort(c1) != GrafanaPort(c2)
  {
    InfluxPortsDistinct(c1, c2);
    PostgresPortsDistinct(c1, c2);
    GrafanaPortsDistinct(c1, c2);
  }

  lemma InfluxPortsDistinct(c1: InstanceConfig, c2: InstanceConfig)
    requires c1.customerIndex != c2.customerIndex
    ensures InfluxPort(c1) != InfluxPort(c2)
  {
    NatToStringInjective(8086 + c1.customerIndex, 8086 + c2.customerIndex);
  }

  lemma PostgresPortsDistinct(c1: InstanceConfig, c2: InstanceConfig)
    requires c1.customerIndex != c2.customerIndex
    ensures PostgresPort(c1) != PostgresPort(c2)
  {
    NatToStringInjective(5432 + c1.customerIndex, 5432 + c2.customerIndex);
  }

  lemma GrafanaPortsDistinct(c1: InstanceConfig, c2: InstanceConfig)
    requires c1.customerIndex != c2.customerIndex
    ensures GrafanaPort(c1) != GrafanaPort(c2)
  {
    NatToStringInjective(3000 + c1.customerIndex, 3000 + c2.customerIndex);
  }

  // ---------------------------------------------------------------------
  // Instance paths

  /** `pathlib`'s `base / part` for a relative base: an absolute part
      replaces the base, an empty part or `.` adds nothing. */
  function JoinPath(base: string, part: string): string
  {
    if part == "" || part == "." then base
    else if part[0] == '/' then part
    else base + "/" + part
  }

  const Instances := "instances"

  /** `INSTANCES / config.customer_name`. */
  function InstanceDir(c: InstanceConfig): string
  {
    JoinPath(Instances, c.customerName)
  }

  /** The two directories `create_instance_directories` makes. */
  function InstanceDirectories(instanceDir: string): seq<string>
  {
    [JoinPath(instanceDir, "fetcher"), JoinPath(instanceDir, "grafana")]
  }

  /** `instance_dir / "docker-compose.yml"`. */
  function ComposePath(instanceDir: string): string
  {
    JoinPath(instanceDir, "docker-compose.yml")
  }

  /** The three Grafana files `customize_grafana_config` rewrites. */
  function GrafanaTemplates(instanceDir: string): seq<string>
  {
    var grafana := JoinPath(instanceDir, "grafana");
    var provisioning := JoinPath(grafana, "provisioning");
    [JoinPath(JoinPath(provisioning, "dashboards"), "SentinelOneKPI.json"),
     JoinPath(JoinPath(provisioning, "datasources"), "influxdb.yml"),
     JoinPath(JoinPath(provisioning, "datasources"), "postgres.yml")]
  }

  /** A path component `pathlib` appends after a separator. */
  predicate Relative(part: string)
  {
    part != "" && part != "." && part[0] != '/'
  }

  /** A plain name: a relative component without a separator. */
  predicate PlainName(name: string)
  {
    Relative(name) && forall i :: 0 <= i < |name| ==> name[i] != '/'
  }

  /** Appending a relative component keeps every prefix of the base. */
  lemma JoinExtends(base: string, part: string, prefix: string)
    requires Relative(part) && StartsWith(base, prefix)
    ensures JoinPath(base, part) == base + "/" + part
    ensures StartsWith(JoinPath(base, part), prefix)
  {
    assert (base + "/" + part)[..|prefix|] == base[..|prefix|];
  }

  /** For a plain customer name the instance lives in `instances/<name>`,
      its compose file and its two directories are components of it, and
      the three Grafana templates lie inside its `grafana` directory. */
  lemma InstancePaths(c: InstanceConfig)
    requires PlainName(c.customerName)
    ensures InstanceDir(c) == Instances + "/" + c.customerName
    ensures ComposePath(InstanceDir(c)) == InstanceDir(c) + "/" + "docker-compose.yml"
    ensures InstanceDirectories(InstanceDir(c)) == [InstanceDir(c) + "/" + "fetcher", InstanceDir(c) + "/" + "grafana"]
    ensures forall t :: t in GrafanaTemplates(InstanceDir(c)) ==>
      StartsWith(t, JoinPath(InstanceDir(c), "grafana") + "/")
  {
    var dir := InstanceDir(c);
    var grafana := JoinPath(dir, "grafana");
    var top := grafana + "/";
    assert Relative("grafana") && Relative("provisioning") && Relative("dashboards") && Relative("datasources");
    assert Relative("docker-compose.yml") && Relative("fetcher");
    assert Relative("SentinelOneKPI.json") && Relative("influxdb.yml") && Relative("postgres.yml");
    JoinExtends(dir, "grafana", dir);
    var provisioning := JoinPath(grafana, "provisioning");
    JoinExtends(grafana, "provisioning", grafana);
    assert StartsWith(provisioning, top) by {
      assert provisioning == grafana + "/" + "provisioning";
      assert provisioning[..|top|] == top;
    }
    JoinExtends(provisioning, "dashboards", top);
    JoinExtends(provisioning, "datasources", top);
    JoinExtends(JoinPath(provisioning, "dashboards"), "SentinelOneKPI.json", top);
    JoinExtends(JoinPath(provisioning, "datasources"), "influxdb.yml", top);
    JoinExtends(JoinPath(provisioning, "datasources"), "postgres.yml", top);
  }

  /** Plain names that differ give different instance directories. */
  lemma InstanceDirsDistinct(c1: InstanceConfig, c2: InstanceConfig)
    requires PlainName(c1.customerName) && PlainName(c2.customerName)
    requires c1.customerName != c2.customerName
    ensures InstanceDir(c1) != InstanceDir(c2)
  {
    var d1, d2 := InstanceDir(c1), InstanceDir(c2);
    assert d1 == Instances + "/" + c1.customerName && d2 == Instances + "/" + c2.customerName;
    assert d1[10..] == c1.customerName && d2[10..] == c2.customerName;
  }

  /** Names are lowercased first, so customers whose names differ only in
      case share one instance directory, organisation, bucket and
      database. */
  lemma CaseVariantsShareInstance(c: Customer, k1: Secrets, k2: Secrets, i: nat, j: nat)
    requires c.name == JStr("ACME")
    ensures GenerateConfig(c.(name := JStr("Acme")), i, k1).value.influxdbBucket
      == GenerateConfig(c, j, k2).value.influxdbBucket == "acme"
    ensures GenerateConfig(c.(name := JStr("Acme")), i, k1).value.influxdbOrg
      == GenerateConfig(c, j, k2).value.influxdbOrg == "acme"
    ensures GenerateConfig(c.(name := JStr("Acme")), i, k1).value.postgresDb
      == GenerateConfig(c, j, k2).value.postgresDb == "acme"
    ensures InstanceDir(GenerateConfig(c.(name := JStr("Acme")), i, k1).value)
      == InstanceDir(GenerateConfig(c, j, k2).value)
  {
    assert Lower("Acme") == "acme";
    assert Lower("ACME") == "acme";
  }
}
