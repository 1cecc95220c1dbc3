/** The base classes of cloudknot's AWS resources: `NamedObject`, its
    subclass `ObjectWithArn` and that one's subclass
    `ObjectWithUsernameAndMemory`. Their attributes are fixed once
    `__init__` returns (subclasses outside this model set `clobbered` and
    `arn`), so each object is a value; the constructors and checks are
    methods on the account state, because they read the config file and
    may write a region or profile back to it. */
module Resources {
  import opened Wrappers
  import opened Text
  import opened AwsFiles
  import opened Resolver
  import opened Account

  datatype NamedObject = NamedObject(name: string, clobbered: bool, region: string, profile: string)

  datatype ObjectWithArn = ObjectWithArn(named: NamedObject, arn: Option<string>)

  datatype ObjectWithUsernameAndMemory =
    ObjectWithUsernameAndMemory(withArn: ObjectWithArn, memory: int, username: string)

  /** The `memory` argument as a caller may pass it: a number or a string. */
  datatype MemoryArg = MemoryInt(n: int) | MemoryText(text: string)

  const DefaultMemory: MemoryArg := MemoryInt(32000)
  const DefaultUsername := "cloudknot-user"
  /** The fallback `get_profile()` uses when called with no argument. */
  const FromEnv := "from-env"

  /** `int(memory)` followed by the positivity check; both failures are
      CloudknotInputError. */
  function ValidateMemory(memory: MemoryArg): (r: Result<int>)
    ensures r.Ok? ==> r.value >= 1
    ensures r.Err? ==> r.error == InputError
    ensures memory.MemoryInt? ==> (r.Ok? <==> memory.n >= 1) && (r.Ok? ==> r.value == memory.n)
    ensures memory.MemoryText? ==>
              (r.Ok? <==> ParseInt(memory.text).Some? && ParseInt(memory.text).value >= 1)
              && (r.Ok? ==> r.value == ParseInt(memory.text).value)
  {
    var mem := match memory
               case MemoryInt(n) => Some(n)
               case MemoryText(s) => ParseInt(s);
    if mem.None? || mem.value < 1 then Err(InputError) else Ok(mem.value)
  }

  /** A positive amount written as a decimal string is accepted as that amount. */
  lemma MemoryTextRoundTrip(n: nat)
    requires n >= 1
    ensures ValidateMemory(MemoryText(Decimal(n))) == Ok(n)
  {
    ParseDecimal(n);
  }

  /** A string without a single digit is refused. */
  lemma MemoryTextWithoutDigitsRefused(s: string)
    requires forall i :: 0 <= i < |s| ==> !IsDigit(s[i])
    ensures ValidateMemory(MemoryText(s)) == Err(InputError)
  {
    ParseNonNumeral(s);
  }

  /** `_get_section_name(resource_type)`: type, profile and region joined
      by single spaces. */
  function SectionName(obj: NamedObject, resourceType: string): string {
    JoinSpace([resourceType, obj.profile, obj.region])
  }

  /** The section name splits back into its three parts whenever none of
      them contains whitespace, so distinct objects get distinct names. */
  lemma SectionNameSplits(obj: NamedObject, resourceType: string)
    requires IsWord(resourceType) && IsWord(obj.profile) && IsWord(obj.region)
    ensures Tokens(SectionName(obj, resourceType)) == [resourceType, obj.profile, obj.region]
  {
    var ws := [resourceType, obj.profile, obj.region];
    assert forall i :: 0 <= i < |ws| ==> IsWord(ws[i]);
    SplitJoin(ws);
  }

  /** The region and profile a new object gets: `get_region()` and then
      `get_profile()` (fallback `from-env`), run one after the other on the
      store. */
  function InitialProfile(store: Store, host: Host): Result<Option<string>> {
    ResolveProfile(store[RegionKey := ResolveRegion(store, host)], host, Some(FromEnv))
  }

  /** `NamedObject.__init__(name)`: refuse unless `configured` is `True`,
      then record the name, `clobbered = False`, and the current region and
      profile. */
  method NewNamedObject(acct: Cloudknot, name: string) returns (r: Result<NamedObject>)
    modifies acct
    ensures !IsConfigured(old(acct.aws)) ==> r == Err(ConfigurationError) && acct.aws == old(acct.aws)
    ensures IsConfigured(old(acct.aws)) ==>
              var region := ResolveRegion(old(acct.aws), acct.host);
              var profile := InitialProfile(old(acct.aws), acct.host);
              && (r.Ok? <==> profile.Ok?)
              && (profile.Err? ==> r == Err(profile.error))
              && (r.Ok? ==> r.value == NamedObject(name, false, region, profile.value.value))
              && acct.aws == StoreAfterGetProfile(old(acct.aws)[RegionKey := region], acct.host)
    ensures acct.clients == old(acct.clients) && acct.repositories == old(acct.repositories)
    ensures acct.calls == old(acct.calls)
    ensures old(acct.Consistent()) ==> acct.Consistent() && (r.Ok? <==> IsConfigured(old(acct.aws)))
  {
    if !IsConfigured(acct.aws) {
      return Err(ConfigurationError);
    }
    var region := acct.GetRegion();
    var profile := acct.GetProfile(Some(FromEnv));
    if profile.Err? {
      return Err(profile.error);
    }
    r := Ok(NamedObject(name, false, region, profile.value.value));
  }

  /** `ObjectWithArn.__init__(name)`: a named object whose ARN is not known yet. */
  method NewObjectWithArn(acct: Cloudknot, name: string) returns (r: Result<ObjectWithArn>)
    modifies acct
    ensures !IsConfigured(old(acct.aws)) ==> r == Err(ConfigurationError) && acct.aws == old(acct.aws)
    ensures IsConfigured(old(acct.aws)) ==>
              var profile := InitialProfile(old(acct.aws), acct.host);
              && (r.Ok? <==> profile.Ok?)
              && (profile.Err? ==> r == Err(profile.error))
              && (r.Ok? ==> r.value == ObjectWithArn(
                               NamedObject(name, false, ResolveRegion(old(acct.aws), acct.host), profile.value.value),
                               None))
              && acct.aws == StoreAfterGetProfile(old(acct.aws)[RegionKey := ResolveRegion(old(acct.aws), acct.host)],
                                                  acct.host)
    ensures acct.clients == old(acct.clients) && acct.repositories == old(acct.repositories)
    ensures acct.calls == old(acct.calls)
    ensures old(acct.Consistent()) ==> acct.Consistent() && (r.Ok? <==> IsConfigured(old(acct.aws)))
  {
    var named := NewNamedObject(acct, name);
    if named.Err? {
      return Err(named.error);
    }
    r := Ok(ObjectWithArn(named.value, None));
  }

  /** `ObjectWithUsernameAndMemory.__init__(name, memory=32000,
      username='cloudknot-user')`: the base initialisation first (so the
      configuration guard wins over a bad `memory`), then the memory check. */
  method NewObjectWithUsernameAndMemory(acct: Cloudknot, name: string,
                                        memory: MemoryArg := DefaultMemory,
                                        username: string := DefaultUsername)
    returns (r: Result<ObjectWithUsernameAndMemory>)
    modifies acct
    ensures !IsConfigured(old(acct.aws)) ==> r == Err(ConfigurationError) && acct.aws == old(acct.aws)
    ensures IsConfigured(old(acct.aws)) ==>
              var profile := InitialProfile(old(acct.aws), acct.host);
              && (profile.Err? ==> r == Err(profile.error))
              && (profile.Ok? && ValidateMemory(memory).Err? ==> r == Err(InputError))
              && (r.Ok? <==> profile.Ok? && ValidateMemory(memory).Ok?)
              && (r.Ok? ==> r.value == ObjectWithUsernameAndMemory(
                               ObjectWithArn(NamedObject(name, false, ResolveRegion(old(acct.aws), acct.host),
                                                         profile.value.value), None),
                               ValidateMemory(memory).value, username))
              && acct.aws == StoreAfterGetProfile(old(acct.aws)[RegionKey := ResolveRegion(old(acct.aws), acct.host)],
                                                  acct.host)
    ensures acct.clients == old(acct.clients) && acct.repositories == old(acct.repositories)
    ensures acct.calls == old(acct.calls)
    ensures old(acct.Consistent()) ==> acct.Consistent()
  {
    var base := NewObjectWithArn(acct, name);
    if base.Err? {
      return Err(base.error);
    }
    var mem := ValidateMemory(memory);
    if mem.Err? {
      return Err(mem.error);
    }
    r := Ok(ObjectWithUsernameAndMemory(base.value, mem.value, username));
  }

  /** `check_profile()`: the object's profile must be the one `get_profile()`
      gives now. */
  method CheckProfile(acct: Cloudknot, obj: NamedObject) returns (r: Result<()>)
    modifies acct
    ensures var current := ResolveProfile(old(acct.aws), acct.host, Some(FromEnv));
            && (current.Err? ==> r == Err(current.error))
            && (current.Ok? && current.value != Some(obj.profile) ==>
                  r == Err(ProfileMismatch(obj.profile, current.value.value)))
            && (r.Ok? <==> current == Ok(Some(obj.profile)))
    ensures acct.aws == StoreAfterGetProfile(old(acct.aws), acct.host)
    ensures acct.clients == old(acct.clients) && acct.repositories == old(acct.repositories)
    ensures acct.calls == old(acct.calls)
    ensures old(acct.Consistent()) ==> acct.Consistent()
  {
    var current := acct.GetProfile(Some(FromEnv));
    if current.Err? {
      return Err(current.error);
    }
    if current.value != Some(obj.profile) {
      return Err(ProfileMismatch(obj.profile, current.value.value));
    }
    r := Ok(());
  }

  /** `check_profile_and_region()`: the region is compared first, so an
      object that differs in both is reported as a region mismatch. */
  method CheckProfileAndRegion(acct: Cloudknot, obj: NamedObject) returns (r: Result<()>)
    modifies acct
    ensures var region := ResolveRegion(old(acct.aws), acct.host);
            var current := InitialProfile(old(acct.aws), acct.host);
            && (obj.region != region ==>
                  r == Err(RegionMismatch(obj.region, region)) && acct.aws == old(acct.aws)[RegionKey := region])
            && (obj.region == region ==>
                  acct.aws == StoreAfterGetProfile(old(acct.aws)[RegionKey := region], acct.host))
            && (r.Ok? <==> obj.region == region && current == Ok(Some(obj.profile)))
            && (obj.region == region && current.Err? ==> r == Err(current.error))
            && (obj.region == region && current.Ok? && current != Ok(Some(obj.profile)) ==>
                  r == Err(ProfileMismatch(obj.profile, current.value.value)))
    ensures acct.clients == old(acct.clients) && acct.repositories == old(acct.repositories)
    ensures acct.calls == old(acct.calls)
    ensures old(acct.Consistent()) ==> acct.Consistent()
  {
    var region := acct.GetRegion();
    if obj.region != region {
      return Err(RegionMismatch(obj.region, region));
    }
    r := CheckProfile(acct, obj);
  }

  /** An object created on a consistent, configured account passes both
      checks on that account as long as nothing changed in between. */
  method CreatedObjectPassesChecks(acct: Cloudknot, name: string) returns (r: Result<()>)
    requires acct.Consistent() && IsConfigured(acct.aws)
    modifies acct
    ensures r.Ok?
  {
    var obj := NewNamedObject(acct, name);
    r := CheckProfileAndRegion(acct, obj.value);
  }
}
