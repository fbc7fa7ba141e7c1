# FIPS test bundle selection and activation, in Dafny

A model of the core of `lib-fips-bundle-test`, a Jenkins test-support library
that configures a child JVM to run in FIPS mode with BouncyCastle. It covers two
things:

- **Bundle resolution.** `FIPSTestBundleProvider.get(version)` picks one
  registered provider by identity (its `getVersion()`). The environment
  variable `FIPS_TEST_BUNDLE_VERSION` comes first, then the system property
  `fips.test.bundle.version`, then the argument. Each tier is a first-match
  scan with no fallback to lower tiers. `get()` is `get(DEFAULT_VERSION)`.
  Module `BundleProvider` (`bundle_provider.dfy`) models this. The registry is a
  `seq<string>` of provider identities in discovery order. The result is the
  index of the chosen provider or an `IllegalArgument` error, and the error
  records which tier failed.
- **The `fips-140_3-2.x` provider.** Module `FIPS1403BC2x` (`fips1403bc2x.dfy`)
  models four pieces:
  - its identity;
  - the five JVM options it returns, in order, including the
    `-Djava.security.properties==<uri>` override;
  - the four jars it stages from the resources `fips-140_3-2.x/<jar>`;
  - the rewrite of the JDK's `java.security` properties. The rewrite removes
    every key starting with `security.provider`, then puts 8 fixed entries.

`Wrappers` holds `Option`, which stands for Java's nullable references, and
`Result`, which stands for thrown exceptions. `Strings` holds `startsWith`.

Inputs the Java code reads from the process are parameters here:

- the environment variable and the system property are `Option<string>`;
- `java.home` is `Option<string>`;
- the content of the JDK's `java.security` file is a function `read` of its path;
- the URI of the generated temporary file is an opaque string.

`DEFAULT_VERSION` is `FIPS1402BC2x.VERSION`. That class is not part of this
model, so the constant is declared without a value. The model only relies on it
being non-empty.

The code and its test disagree about the jar count. `getBootClasspathFiles()`
stages four jars: `bc-fips`, `bcpkix-fips`, `bcutil-fips` and `bctls-fips`. The
test `get_fips1402x` expects `hasSize(3)` for this provider
(`FIPSTestBundleProviderTest.java` line 48). The model follows the code: `GetBootClasspathFiles`
promises exactly four.

## Model

| member | source | states |
|---|---|---|
| BundleProvider.FirstMatch | src/main/java/io/jenkins/test/fips/FIPSTestBundleProvider.java:73-75 | finds a provider exactly when the identity is registered; the index found carries that identity and no earlier provider does |
| BundleProvider.Get | src/main/java/io/jenkins/test/fips/FIPSTestBundleProvider.java:67-98 | a set environment variable (even empty) is looked up alone; otherwise a set system property alone; otherwise a null or empty argument fails with no lookup, and a non-empty one is looked up. Each lookup returns the first match or fails with that tier's error |
| BundleProvider.GetDefault | src/main/java/io/jenkins/test/fips/FIPSTestBundleProvider.java:54-56 | `get()` is `get(DEFAULT_VERSION)`; with no override it resolves to the first provider with the default identity, or fails when there is none |
| BundleProvider.EnvVarIgnoresOtherInputs | src/main/java/io/jenkins/test/fips/FIPSTestBundleProvider.java:68-79 | with the environment variable set, the result does not depend on the system property or the argument |
| BundleProvider.SysPropIgnoresVersion | src/main/java/io/jenkins/test/fips/FIPSTestBundleProvider.java:80-89 | with only the system property set, the result does not depend on the argument |
| BundleProvider.NoFallback | src/main/java/io/jenkins/test/fips/FIPSTestBundleProvider.java:71-88 | an override that names no provider fails, even when the argument names one |
| BundleProvider.EmptyEnvVarIsNotAbsent | src/main/java/io/jenkins/test/fips/FIPSTestBundleProvider.java:68-77 | an empty environment variable counts as set: it is looked up with the environment variable's error, whatever the other inputs say, and fails unless some provider has the empty identity |
| BundleProvider.RejectsBadVersion | src/main/java/io/jenkins/test/fips/FIPSTestBundleProvider.java:90-96 | with no override, a null, empty or unregistered argument fails, whatever the registry holds |
| BundleProvider.GetIsFirstMatchOfSelected | src/main/java/io/jenkins/test/fips/FIPSTestBundleProvider.java:67-98 | `get` succeeds if and only if the identity chosen by precedence is registered, and it then returns the first provider with that identity |
| BundleProvider.DefaultResolvesWhenRegistered | src/test/java/io/jenkins/test/fips/FIPSTestBundleProviderTest.java:32 | with no override and the default provider registered, `get()` succeeds and returns a provider with the default identity |
| FIPS1403BC2x.GetVersion | src/main/java/io/jenkins/test/fips/FIPS1403BC2x.java:20-25 | the identity is always the non-empty constant `fips-140_3-2.x` |
| FIPS1403BC2x.RemoveRegistrations | src/main/java/io/jenkins/test/fips/FIPS1403BC2x.java:70 | keeps exactly the keys that do not start with `security.provider`, with their values |
| FIPS1403BC2x.Inject | src/main/java/io/jenkins/test/fips/FIPS1403BC2x.java:71-84 | the result has the old keys plus the injected ones; injected keys take their injected values and the other keys keep theirs |
| FIPS1403BC2x.Rewrite | src/main/java/io/jenkins/test/fips/FIPS1403BC2x.java:70-84 | every injected key has its injected value; a base key that is not a registration and not injected keeps its value; no other key appears; the only registrations left are `security.provider.1/2/3` |
| FIPS1403BC2x.InjectedRegistrations | src/main/java/io/jenkins/test/fips/FIPS1403BC2x.java:71-84 | of the 8 injected keys, exactly `security.provider.1`, `.2` and `.3` start with `security.provider` |
| FIPS1403BC2x.RewriteIdempotent | src/main/java/io/jenkins/test/fips/FIPS1403BC2x.java:70-84 | rewriting an already rewritten property set changes nothing |
| FIPS1403BC2x.RemovalBeforeInjection | src/main/java/io/jenkins/test/fips/FIPS1403BC2x.java:70-73 | removal before injection keeps `security.provider.1`; the opposite order would lose it |
| FIPS1403BC2x.JavaSecurityPath | src/main/java/io/jenkins/test/fips/FIPS1403BC2x.java:63 | the base file is `conf/security/java.security` under `java.home`: three name elements after `java.home` itself |
| FIPS1403BC2x.WriteFIPSJavaSecurityFile | src/main/java/io/jenkins/test/fips/FIPS1403BC2x.java:58-88 | fails with an illegal-argument error exactly when `java.home` is missing; otherwise reads `<java.home>/conf/security/java.security` and holds its rewrite |
| FIPS1403BC2x.JavaOptions | src/main/java/io/jenkins/test/fips/FIPS1403BC2x.java:28-36 | five options; exactly the second is the `-Djava.security.properties==` override, followed by the file's URI; without it the four fixed options remain, in order |
| FIPS1403BC2x.JavaOptionsTargetGeneratedFile | src/main/java/io/jenkins/test/fips/FIPS1403BC2x.java:31-32 | reading the override target back from the options yields the generated file's URI |
| FIPS1403BC2x.GetJavaOptions | src/main/java/io/jenkins/test/fips/FIPS1403BC2x.java:27-36 | fails exactly when `java.home` is missing; otherwise the options are exactly the five of `JavaOptions`, in order, pointing at the generated file, which holds the rewrite of the JDK's properties |
| FIPS1403BC2x.ResourceName | src/main/java/io/jenkins/test/fips/FIPS1403BC2x.java:49 | a jar's resource lies in the directory named after the provider's identity, under the jar's own name |
| FIPS1403BC2x.ResourceNameRoundTrip | src/main/java/io/jenkins/test/fips/FIPS1403BC2x.java:49 | the jar name can be recovered from its resource name |
| FIPS1403BC2x.ResourceNameInjective | src/main/java/io/jenkins/test/fips/FIPS1403BC2x.java:49 | distinct jars are read from distinct resources |
| FIPS1403BC2x.ExtractJar | src/main/java/io/jenkins/test/fips/FIPS1403BC2x.java:47-56 | the staged copy comes from the jar's own resource; the temporary file's prefix is the jar name and its suffix is `jar` |
| FIPS1403BC2x.GetBootClasspathFiles | src/main/java/io/jenkins/test/fips/FIPS1403BC2x.java:39-45 | four jars, staged in the order `bc-fips`, `bcpkix-fips`, `bcutil-fips`, `bctls-fips`, each from a different resource |
| FIPS1403BC2x.GetFindsThisProvider | src/test/java/io/jenkins/test/fips/FIPSTestBundleProviderTest.java:45-47 | with no override and this provider registered, `get(VERSION)` returns a provider whose identity is `fips-140_3-2.x` |

## Left out

- Provider discovery through `ServiceLoader` and the reflective instantiation of providers. The registry is passed in as the sequence of identities, in discovery order.
- `System.getenv`, `System.getProperty("fips.test.bundle.version")` and `System.getProperty("java.home")`. Their values are parameters.
- Temporary files (`Files.createTempFile`, `deleteOnExit`), copying resources (`IOUtils.copy`) and opening or closing streams. A staged jar is described by its resource and its temporary-file prefix and suffix. The generated security file is described by its URI, an opaque parameter, and its content.
- I/O failures, including the `NullPointerException` when a jar resource is missing. They are not modelled.
- `Properties.load` and `Properties.store`: parsing, escaping, comments and the timestamp header. Only the in-memory key/value map is modelled.
- FIPS1403BC2x.JavaSecurityPath: `Paths.get` joins with the platform separator and normalises the result. The model keeps the four name elements and does not normalise them.
- The classes `FIPS1402BC1x` and `FIPS1402BC2x`. They are not part of this model, so the value of `DEFAULT_VERSION` and their jar lists are unknown.
- Logging and the text of exception messages. The error value records which tier failed instead. The message for the system-property tier says "env var".
