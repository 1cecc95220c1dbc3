/** The host machine as the base layer sees it: environment variables, the
    home directory and the AWS ini files (`~/.aws/config`,
    `~/.aws/credentials`), and `list_profiles`, which reads profile names out
    of those files. */
module AwsFiles {
  import opened Wrappers
  import opened Text

  /** One `[name]` section of an ini file and its options. */
  datatype Section = Section(name: string, options: map<string, string>)

  /** An ini file as configparser reads it: its sections, in file order. */
  datatype IniFile = IniFile(sections: seq<Section>)

  /** Environment variables, the user's home directory, and the files that
      exist on disk, by path. */
  datatype Host = Host(env: map<string, string>, home: string, files: map<string, IniFile>)

  /** What `list_profiles` returns: the profile names and the two file paths. */
  datatype ProfileInfo = ProfileInfo(names: seq<string>, credentialsFile: string, configFile: string)

  function SectionNames(f: IniFile): (names: seq<string>)
    ensures |names| == |f.sections|
    ensures forall i :: 0 <= i < |names| ==> names[i] == f.sections[i].name
  {
    seq(|f.sections|, i requires 0 <= i < |f.sections| => f.sections[i].name)
  }

  /** configparser's `get(section, option)`, `None` when either is missing:
      the option of the first section of that name. */
  function IniGet(f: IniFile, section: string, option: string): (r: Option<string>)
    ensures (forall i :: 0 <= i < |f.sections| ==> f.sections[i].name != section) ==> r.None?
    ensures forall i :: 0 <= i < |f.sections| && f.sections[i].name == section
                        && (forall j :: 0 <= j < i ==> f.sections[j].name != section) ==>
              r == (if option in f.sections[i].options then Some(f.sections[i].options[option]) else None)
    decreases |f.sections|
  {
    if f.sections == [] then None
    else if f.sections[0].name == section then
      if option in f.sections[0].options then Some(f.sections[0].options[option]) else None
    else
      var rest := IniFile(f.sections[1..]);
      assert forall i :: 1 <= i < |f.sections| ==> f.sections[i] == rest.sections[i - 1];
      IniGet(rest, section, option)
  }

  /** `os.path.join(home, '.aws', leaf)` */
  function AwsDirFile(host: Host, leaf: string): string {
    host.home + "/.aws/" + leaf
  }

  /** configparser's `read(path)`: a file that does not exist reads as empty. */
  function ReadIni(host: Host, path: string): IniFile {
    if path in host.files then host.files[path] else IniFile([])
  }

  function EnvOr(host: Host, name: string, otherwise: string): string {
    if name in host.env then host.env[name] else otherwise
  }

  const CredentialsFileVar := "AWS_SHARED_CREDENTIALS_FILE"
  const ConfigFileVar := "AWS_CONFIG_FILE"

  function CredentialsPath(host: Host): string {
    EnvOr(host, CredentialsFileVar, AwsDirFile(host, "credentials"))
  }

  function ConfigPath(host: Host): string {
    EnvOr(host, ConfigFileVar, AwsDirFile(host, "config"))
  }

  /** A config-file section header of exactly the form `profile X`. */
  predicate IsProfileHeader(header: string, x: string) {
    Tokens(header) == ["profile", x]
  }

  /** The list comprehension over the AWS config file's section names:
      the `X` of every `profile X` header, in order. `s.split()[0]` raises
      IndexError on a header that is all whitespace. */
  function ConfigProfiles(headers: seq<string>): (r: Result<seq<string>>)
    ensures r.Ok? <==> forall i :: 0 <= i < |headers| ==> Tokens(headers[i]) != []
    ensures r.Err? ==> r.error == IndexError
    ensures r.Ok? ==> |r.value| <= |headers|
    ensures r.Ok? ==> forall x :: x in r.value <==>
                        exists i :: 0 <= i < |headers| && IsProfileHeader(headers[i], x)
  {
    if headers == [] then Ok([])
    else
      var ts := Tokens(headers[0]);
      if ts == [] then Err(IndexError)
      else
        match ConfigProfiles(headers[1..])
        case Err(e) => Err(e)
        case Ok(rest) =>
          assert forall i :: 0 <= i < |headers[1..]| ==> headers[1..][i] == headers[i + 1];
          Ok((if ts[0] == "profile" && |ts| == 2 then [ts[1]] else []) + rest)
  }

  /** Python's `list_profiles()`. */
  function ListProfiles(host: Host): (r: Result<ProfileInfo>)
    ensures r.Ok? <==>
      var headers := SectionNames(ReadIni(host, ConfigPath(host)));
      forall i :: 0 <= i < |headers| ==> Tokens(headers[i]) != []
    ensures r.Err? ==> r.error == IndexError
    ensures r.Ok? ==> r.value.credentialsFile == CredentialsPath(host)
                      && r.value.configFile == ConfigPath(host)
    ensures r.Ok? ==>
      var creds := SectionNames(ReadIni(host, CredentialsPath(host)));
      var headers := SectionNames(ReadIni(host, ConfigPath(host)));
      && r.value.names == ConfigProfiles(headers).value + creds
      && |creds| <= |r.value.names|
      && r.value.names[|r.value.names| - |creds|..] == creds
      && forall x :: x in r.value.names <==>
           (x in creds || exists i :: 0 <= i < |headers| && IsProfileHeader(headers[i], x))
  {
    var headers := SectionNames(ReadIni(host, ConfigPath(host)));
    var creds := SectionNames(ReadIni(host, CredentialsPath(host)));
    match ConfigProfiles(headers)
    case Err(e) =>
      Err(e)
    case Ok(fromConfig) =>
      var names := fromConfig + creds;
      assert names[|names| - |creds|..] == creds;
      Ok(ProfileInfo(names, CredentialsPath(host), ConfigPath(host)))
  }

  /** The `[default] region` of `~/.aws/config` (a fixed path: the
      AWS_CONFIG_FILE override is not consulted here), else `us-east-1`. */
  function AwsConfigDefaultRegion(host: Host): (region: string)
    ensures var path := AwsDirFile(host, "config");
            path in host.files && IniGet(host.files[path], "default", "region").Some? ==>
              region == IniGet(host.files[path], "default", "region").value
    ensures var path := AwsDirFile(host, "config");
            path !in host.files || IniGet(host.files[path], "default", "region").None? ==>
              region == "us-east-1"
  {
    var path := AwsDirFile(host, "config");
    if path in host.files then
      match IniGet(host.files[path], "default", "region")
      case Some(r) => r
      case None => "us-east-1"
    else "us-east-1"
  }

  /** A `~/.aws/config` whose `[default]` section sets the region gives
      that region; one whose `[default]` section does not gives `us-east-1`,
      whatever other sections set. */
  lemma AwsConfigDefaultRegionExample(env: map<string, string>, home: string, r: string, other: map<string, string>)
    requires "region" !in other
    ensures AwsConfigDefaultRegion(Host(env, home, map[AwsDirFile(Host(env, home, map[]), "config") :=
              IniFile([Section("profile x", map["region" := "ap-south-1"]), Section("default", map["region" := r])])]))
            == r
    ensures AwsConfigDefaultRegion(Host(env, home, map[AwsDirFile(Host(env, home, map[]), "config") :=
              IniFile([Section("default", other), Section("profile x", map["region" := r])])]))
            == "us-east-1"
  {
    var path := AwsDirFile(Host(env, home, map[]), "config");
    var f1 := IniFile([Section("profile x", map["region" := "ap-south-1"]), Section("default", map["region" := r])]);
    assert f1.sections[1].name == "default" && forall j :: 0 <= j < 1 ==> f1.sections[j].name != "default";
    assert IniGet(f1, "default", "region") == Some(r);
    assert AwsDirFile(Host(env, home, map[path := f1]), "config") == path;
    var f2 := IniFile([Section("default", other), Section("profile x", map["region" := r])]);
    assert AwsDirFile(Host(env, home, map[path := f2]), "config") == path;
  }

  /** One step of `ConfigProfiles` on a header that is not blank. */
  lemma ConfigProfilesUnfold(h: string, rest: seq<string>)
    requires Tokens(h) != []
    ensures ConfigProfiles([h] + rest) ==
      match ConfigProfiles(rest)
      case Err(e) => Err(e)
      case Ok(ps) => Ok((if Tokens(h)[0] == "profile" && |Tokens(h)| == 2 then [Tokens(h)[1]] else []) + ps)
  {
    assert ([h] + rest)[1..] == rest;
  }

  /** The comprehension keeps the headers' order and repetitions: the
      profiles of two consecutive runs of headers are the profiles of the
      first run followed by those of the second, and one header gives its
      own `X` or nothing. */
  lemma {:induction false} ConfigProfilesAppend(a: seq<string>, b: seq<string>)
    ensures ConfigProfiles(a + b).Ok? <==> ConfigProfiles(a).Ok? && ConfigProfiles(b).Ok?
    ensures ConfigProfiles(a + b).Ok? ==>
              ConfigProfiles(a + b).value == ConfigProfiles(a).value + ConfigProfiles(b).value
    decreases |a|
  {
    if a == [] {
      assert a + b == b;
    } else {
      var ab := a + b;
      assert ab[0] == a[0] && ab[1..] == a[1..] + b;
      ConfigProfilesAppend(a[1..], b);
      var ts := Tokens(a[0]);
      if ts != [] && ConfigProfiles(ab).Ok? {
        var head := if ts[0] == "profile" && |ts| == 2 then [ts[1]] else [];
        assert ConfigProfiles(ab).value == head + ConfigProfiles(a[1..] + b).value;
        assert ConfigProfiles(a).value == head + ConfigProfiles(a[1..]).value;
      }
    }
  }

  /** One header on its own. */
  lemma ConfigProfilesSingle(h: string)
    ensures Tokens(h) == [] ==> ConfigProfiles([h]) == Err(IndexError)
    ensures Tokens(h) != [] && Tokens(h)[0] == "profile" && |Tokens(h)| == 2 ==>
              ConfigProfiles([h]) == Ok([Tokens(h)[1]])
    ensures Tokens(h) != [] && (Tokens(h)[0] != "profile" || |Tokens(h)| != 2) ==> ConfigProfiles([h]) == Ok([])
  {
    var none: seq<string> := [];
    assert [h] + none == [h];
    if Tokens(h) != [] {
      assert ConfigProfiles(none) == Ok([]);
      ConfigProfilesUnfold(h, none);
      if Tokens(h)[0] == "profile" && |Tokens(h)| == 2 {
        assert [Tokens(h)[1]] + none == [Tokens(h)[1]];
      }
    }
  }

  /** A bare `[default]` header of the config file is not a profile entry,
      while `[profile X]` is. */
  lemma ConfigProfilesExample(x: string)
    requires IsWord(x)
    ensures ConfigProfiles(["default", "profile " + x]) == Ok([x])
  {
    var d := "default";
    assert IsWord(d);
    assert d + [] == d;
    TokensOfWord(d, []);
    assert Tokens(d) == [d] && d != "profile";
    ProfileHeaderTokens(x);
    var p := "profile " + x;
    var none: seq<string> := [];
    assert ConfigProfiles(none) == Ok([]);
    assert Tokens(p)[0] == "profile" && |Tokens(p)| == 2 && Tokens(p)[1] == x;
    ConfigProfilesUnfold(p, none);
    assert [p] + none == [p] && [x] + none == [x];
    ConfigProfilesUnfold(d, [p]);
    assert [] + [x] == [x];
    assert [d] + [p] == ["default", "profile " + x];
  }

  /** With both files named through the environment, the config file's
      profiles come first and the credentials file's sections follow verbatim. */
  lemma ListProfilesExample(home: string, x: string, credentials: IniFile)
    requires IsWord(x)
    ensures
      var host := Host(map[ConfigFileVar := "c", CredentialsFileVar := "k"], home,
                       map["c" := IniFile([Section("default", map[]), Section("profile " + x, map[])]),
                           "k" := credentials]);
      ListProfiles(host) == Ok(ProfileInfo([x] + SectionNames(credentials), "k", "c"))
  {
    var configFile := IniFile([Section("default", map[]), Section("profile " + x, map[])]);
    var host := Host(map[ConfigFileVar := "c", CredentialsFileVar := "k"], home,
                     map["c" := configFile, "k" := credentials]);
    assert ReadIni(host, ConfigPath(host)) == configFile;
    assert ReadIni(host, CredentialsPath(host)) == credentials;
    assert SectionNames(configFile) == ["default", "profile " + x];
    ConfigProfilesExample(x);
  }
}
