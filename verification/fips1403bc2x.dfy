/** The `FIPS1403BC2x` bundle provider: its identity, the JVM options it hands
    to the child process, the jars it stages for `-Xbootclasspath/a`, and the
    rewrite of the JDK's `java.security` properties it writes to a temporary
    file.

    File-system effects are outside the model: the content read from the JDK's
    `java.security` is given by a `read` function of the path, and the URI of
    the generated temporary file is an opaque string. */
module FIPS1403BC2x {
  import opened Wrappers
  import opened Strings
  import BundleProvider

  /** The identity of this provider. */
  const VERSION: BundleProvider.Identity := "fips-140_3-2.x"

  /** `getVersion()`. */
  function GetVersion(): (v: string)
    ensures v == "fips-140_3-2.x"
    ensures |v| > 0
  {
    VERSION
  }

  // ---------------------------------------------------------------------------
  // The security-properties rewrite

  /** Keys starting with this prefix register JCA providers; all of the base
      file's registrations are dropped. */
  const SECURITY_PROVIDER_PREFIX := "security.provider"

  const BC_FIPS_PROVIDER := "org.bouncycastle.jcajce.provider.BouncyCastleFipsProvider C:HYBRID;ENABLE{All};"
  const BC_JSSE_PROVIDER := "org.bouncycastle.jsse.provider.BouncyCastleJsseProvider fips:BCFIPS"

  /** The eight entries put into the properties after the registrations are
      removed. */
  const INJECTED: map<string, string> := map[
    "security.provider.1" := BC_FIPS_PROVIDER,
    "security.provider.2" := BC_JSSE_PROVIDER,
    "security.provider.3" := "sun.security.provider.Sun",
    "fips.provider.1" := BC_FIPS_PROVIDER,
    "fips.provider.2" := BC_JSSE_PROVIDER,
    "keystore.type" := "BCFKS",
    "ssl.KeyManagerFactory.algorithm" := "PKIX",
    "fips.keystore.type" := "BCFKS"
  ]

  /** The provider registrations the rewritten file ends up with. */
  const INJECTED_REGISTRATIONS: set<string> := {"security.provider.1", "security.provider.2", "security.provider.3"}

  predicate IsRegistration(key: string) {
    StartsWith(key, SECURITY_PROVIDER_PREFIX)
  }

  /** `properties.keySet().removeIf(k -> k.startsWith("security.provider"))`. */
  function RemoveRegistrations(props: map<string, string>): (r: map<string, string>)
    ensures forall k :: k in r <==> k in props && !IsRegistration(k)
    ensures forall k :: k in r ==> r[k] == props[k]
  {
    map k | k in props && !IsRegistration(k) :: props[k]
  }

  /** The `properties.put` calls: injected entries overwrite or add. */
  function Inject(props: map<string, string>): (r: map<string, string>)
    ensures r.Keys == props.Keys + INJECTED.Keys
    ensures forall k :: k in INJECTED ==> r[k] == INJECTED[k]
    ensures forall k :: k in props && k !in INJECTED ==> r[k] == props[k]
  {
    props + INJECTED
  }

  /** The in-memory part of `writeFIPSJavaSecurityFile`: drop the base's
      registrations, then inject. */
  function Rewrite(base: map<string, string>): (r: map<string, string>)
    // every injected key carries its injected value, whatever the base held
    ensures forall k :: k in INJECTED ==> k in r && r[k] == INJECTED[k]
    // nothing else changes
    ensures forall k :: k in base && !IsRegistration(k) && k !in INJECTED ==> k in r && r[k] == base[k]
    // and nothing else appears
    ensures forall k :: k in r ==> k in INJECTED || (k in base && !IsRegistration(k))
    // the only registrations left are the injected ones
    ensures forall k :: k in r && IsRegistration(k) ==> k in INJECTED_REGISTRATIONS
  {
    InjectedRegistrations();
    Inject(RemoveRegistrations(base))
  }

  /** Exactly three of the injected keys are provider registrations. */
  lemma InjectedRegistrations()
    ensures forall k :: k in INJECTED && IsRegistration(k) <==> k in INJECTED_REGISTRATIONS
  {
    var p := SECURITY_PROVIDER_PREFIX;
    assert "security.provider.1"[..|p|] == p;
    assert "security.provider.2"[..|p|] == p;
    assert "security.provider.3"[..|p|] == p;
    assert "fips.provider.1"[0] != p[0];
    assert "fips.provider.2"[0] != p[0];
    assert "keystore.type"[0] != p[0];
    assert "ssl.KeyManagerFactory.algorithm"[1] != p[1];
    assert "fips.keystore.type"[0] != p[0];
  }

  /** Rewriting a rewritten file changes nothing. */
  lemma RewriteIdempotent(base: map<string, string>)
    ensures Rewrite(Rewrite(base)) == Rewrite(base)
  {
  }

  /** Removal must come first: injecting and then removing would lose the
      injected `security.provider.1`. */
  lemma RemovalBeforeInjection(base: map<string, string>)
    ensures "security.provider.1" in Rewrite(base)
    ensures "security.provider.1" !in RemoveRegistrations(Inject(base))
  {
  }

  /** The `IllegalArgumentException` thrown when `java.home` is not set. */
  datatype Error = MissingJavaHome

  /** Where `Paths.get(javaHome, "conf", "security", "java.security")` points,
      as its name elements. */
  datatype Path = Path(elements: seq<string>)

  function JavaSecurityPath(javaHome: string): (p: Path)
    ensures |p.elements| == 4 && p.elements[0] == javaHome
    ensures p.elements[1..] == ["conf", "security", "java.security"]
  {
    Path([javaHome, "conf", "security", "java.security"])
  }

  /** The generated file: the base it was derived from and what it holds. */
  datatype SecurityFile = SecurityFile(base: Path, properties: map<string, string>)

  /** `writeFIPSJavaSecurityFile()`, with `java.home` as `javaHome` and the
      loading of a properties file as `read`. */
  function WriteFIPSJavaSecurityFile(javaHome: Option<string>, read: Path -> map<string, string>)
    : (r: Result<SecurityFile, Error>)
    ensures r.Failure? <==> javaHome.None?
    ensures r.Failure? ==> r.error == MissingJavaHome
    ensures r.Success? ==>
      && r.value.base == Path([javaHome.value, "conf", "security", "java.security"])
      && r.value.properties == Rewrite(read(r.value.base))
  {
    match javaHome
    case None => Failure(MissingJavaHome)
    case Some(home) =>
      var path := JavaSecurityPath(home);
      Success(SecurityFile(path, Rewrite(read(path))))
  }

  // ---------------------------------------------------------------------------
  // JVM options

  /** `==` rather than `=` makes the generated file replace, not amend, the
      JDK's own security properties. */
  const SECURITY_PROPERTIES_OVERRIDE := "-Djava.security.properties=="

  /** The options that do not depend on the generated file, in order. */
  const FIXED_OPTIONS := [
    "-Dsecurity.useSystemPropertiesFile=false",
    "-Dorg.bouncycastle.fips.approved_only=true",
    "-Djavax.net.ssl.trustStoreType=PKCS12",
    "-Djenkins.security.FIPS140.COMPLIANCE=true"
  ]

  /** The list `getJavaOptions()` builds around the generated file's URI. */
  function JavaOptions(securityFileUri: string): (r: seq<string>)
    ensures |r| == 5
    ensures forall i :: 0 <= i < |r| ==> (StartsWith(r[i], SECURITY_PROPERTIES_OVERRIDE) <==> i == 1)
    ensures r[1] == SECURITY_PROPERTIES_OVERRIDE + securityFileUri
    ensures r[..1] + r[2..] == FIXED_OPTIONS
  {
    var p := SECURITY_PROPERTIES_OVERRIDE;
    StartsWithConcat(p, securityFileUri);
    assert FIXED_OPTIONS[0][2] != p[2];
    assert FIXED_OPTIONS[1][2] != p[2];
    assert FIXED_OPTIONS[2][6] != p[6];
    assert FIXED_OPTIONS[3][3] != p[3];
    var r := [FIXED_OPTIONS[0], p + securityFileUri] + FIXED_OPTIONS[1..];
    assert r[..1] + r[2..] == FIXED_OPTIONS;
    r
  }

  /** Reads back the target of the first `java.security.properties==`
      directive: what the child JVM will load its security properties from. */
  function SecurityPropertiesTarget(options: seq<string>): Option<string> {
    if |options| == 0 then None
    else if StartsWith(options[0], SECURITY_PROPERTIES_OVERRIDE)
    then Some(StripPrefix(options[0], SECURITY_PROPERTIES_OVERRIDE))
    else SecurityPropertiesTarget(options[1..])
  }

  /** The options point the child JVM at the generated file, and nowhere else. */
  lemma JavaOptionsTargetGeneratedFile(securityFileUri: string)
    ensures SecurityPropertiesTarget(JavaOptions(securityFileUri)) == Some(securityFileUri)
  {
  }

  /** `getJavaOptions()`: writes the security file, then lists the options;
      `securityFileUri` is the URI of the temporary file the properties go to. */
  function GetJavaOptions(javaHome: Option<string>, read: Path -> map<string, string>, securityFileUri: string)
    : (r: Result<(seq<string>, SecurityFile), Error>)
    ensures r.Failure? <==> javaHome.None?
    ensures r.Failure? ==> r.error == MissingJavaHome
    ensures r.Success? ==>
      && r.value.0 == JavaOptions(securityFileUri)
      && SecurityPropertiesTarget(r.value.0) == Some(securityFileUri)
      && |r.value.0| == 5
      && r.value.1.properties == Rewrite(read(JavaSecurityPath(javaHome.value)))
  {
    var file :- WriteFIPSJavaSecurityFile(javaHome, read);
    JavaOptionsTargetGeneratedFile(securityFileUri);
    Success((JavaOptions(securityFileUri), file))
  }

  // ---------------------------------------------------------------------------
  // Boot classpath jars

  /** The jars staged for `-Xbootclasspath/a`, in order. */
  const JARS := ["bc-fips.jar", "bcpkix-fips.jar", "bcutil-fips.jar", "bctls-fips.jar"]

  /** The class-path resource holding a jar: inside the directory named after
      this provider's identity. */
  function ResourceName(jarName: string): (r: string)
    ensures StartsWith(r, VERSION + "/")
    ensures StripPrefix(r, VERSION + "/") == jarName
  {
    StartsWithConcat(VERSION + "/", jarName);
    VERSION + "/" + jarName
  }

  /** The jar a resource name refers to, if it lies in this provider's directory. */
  function JarOfResource(resource: string): Option<string> {
    if StartsWith(resource, VERSION + "/") then Some(StripPrefix(resource, VERSION + "/")) else None
  }

  lemma ResourceNameRoundTrip(jarName: string)
    ensures JarOfResource(ResourceName(jarName)) == Some(jarName)
  {
  }

  lemma ResourceNameInjective(jar1: string, jar2: string)
    ensures ResourceName(jar1) == ResourceName(jar2) ==> jar1 == jar2
  {
  }

  /** One `extractJar(jarName)`: the resource copied, and the prefix and suffix
      given to `Files.createTempFile` (the suffix is `jar`, without a dot); the
      random part of the temporary file's name is not modelled. */
  datatype StagedJar = StagedJar(resource: string, tempPrefix: string, tempSuffix: string)

  function ExtractJar(jarName: string): (s: StagedJar)
    ensures JarOfResource(s.resource) == Some(jarName)
    ensures s.tempPrefix == jarName && s.tempSuffix == "jar"
  {
    ResourceNameRoundTrip(jarName);
    StagedJar(ResourceName(jarName), jarName, "jar")
  }

  /** `getBootClasspathFiles()`: four jars, in the order of `JARS`, each from
      its own resource. */
  function GetBootClasspathFiles(): (r: seq<StagedJar>)
    ensures |r| == 4
    ensures forall i :: 0 <= i < |r| ==> JarOfResource(r[i].resource) == Some(JARS[i])
    ensures forall i, j :: 0 <= i < j < |r| ==> r[i].resource != r[j].resource
  {
    var r := [ExtractJar(JARS[0]), ExtractJar(JARS[1]), ExtractJar(JARS[2]), ExtractJar(JARS[3])];
    forall i, j | 0 <= i < j < |r|
      ensures r[i].resource != r[j].resource
    {
      assert JARS[i] != JARS[j];
    }
    r
  }

  /** Asked for by its own identity with no override set, `get` returns this
      provider wherever it sits in the registry. */
  lemma GetFindsThisProvider(registry: seq<string>)
    requires VERSION in registry
    ensures BundleProvider.Get(None, None, Some(GetVersion()), registry).Success?
    ensures registry[BundleProvider.Get(None, None, Some(GetVersion()), registry).value] == VERSION
  {
  }
}
