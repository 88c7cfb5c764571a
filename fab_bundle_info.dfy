/**
 * The package-version resolver of a Fuse Application Bundle: which dependency
 * provides an imported or exported package, whether the import is optional,
 * and which OSGi version constraint goes on the generated manifest.
 *
 * The third-party calls the resolver makes (bnd's header parser, Felix's
 * version cleaner, the range synthesizer and the export-version lookup in
 * `Versions`, and the emptiness test in `Strings`) are not modelled: they are
 * supplied as the functions of a `Library`.
 */
module FabBundleInfo {
  import opened Wrappers
  import opened JavaInt
  import opened Dependencies

  /** Manifest header and clause attribute names, section 3.6.5 of the OSGi Core Specification (Release 4). */
  const ExportPackageHeader: string := "Export-Package"
  const VersionAttribute: string := "version"
  const SpecificationVersionAttribute: string := "specification-version"

  /** `ServiceConstants.DEFAULT_VERSION_DIGITS`. */
  const DefaultVersionDigits: int := 3
  /** The largest precision accepted from the manifest property (4 means an exact version). */
  const MaxVersionDigits: int := 4

  /**
   * The parts of `FabClassPathResolver` the resolver reads: the shared
   * dependencies in resolution order, the root of the tree, the optional
   * dependency filter, and the value of the version-range-digits manifest
   * property (`None` when it is not set).
   */
  datatype ClassPathResolver = ClassPathResolver(
    sharedDependencies: seq<DependencyTree>,
    rootTree: DependencyTree,
    optionalDependencyFilter: DependencyTree -> bool,
    versionRangeDigits: Option<string>)

  /** A parsed Export-Package header: package name to its clause's attributes. */
  type Clauses = map<string, map<string, string>>

  /**
   * The calls into code outside this model. `parseHeader` yields `None` when
   * the header text makes the parser throw.
   */
  datatype Library = Library(
    notEmpty: string -> bool,
    parseHeader: string -> Option<Clauses>,
    clean: string -> string,
    toVersionRange: (string, int) -> string,
    getOSGiPackageVersion: (DependencyTree, string) -> Option<string>)

  /** The exception an unparsable Export-Package header raises; it is not caught. */
  datatype HeaderError = MalformedHeader(header: string)

  /** A `FabBundleInfoImpl` as far as version resolution sees it. */
  datatype BundleInfo = BundleInfo(resolver: ClassPathResolver, lib: Library)

  /** `Strings.notEmpty` on a nullable string: `null` is empty. */
  predicate NotEmpty(lib: Library, s: Option<string>)
  {
    s.Some? && lib.notEmpty(s.value)
  }

  // ---------------------------------------------------------------------------
  // Import-side and export-side lookup

  /** The first shared dependency exporting `name`: what `resolvePackageDependency(name)` yields. */
  function FirstSharedExporter(resolver: ClassPathResolver, name: string): Option<DependencyTree>
  {
    FindExporter(resolver.sharedDependencies, name)
  }

  /** `resolvePackageDependency(packageName)`: the scan over the shared dependencies. */
  method ResolvePackageDependency(info: BundleInfo, name: string) returns (r: Option<DependencyTree>)
    ensures r.Some? ==> r.value in info.resolver.sharedDependencies && Exports(r.value, name)
    ensures r == FirstSharedExporter(info.resolver, name)
  {
    r := ResolvePackageDependencyIn(name, info.resolver.sharedDependencies);
  }

  /**
   * `resolveExportPackageVersion(packageName)`: scan a copy of the shared
   * dependencies with the root appended, and ask `Versions` for the package
   * version of the node found. A shared dependency wins over the root; the
   * root is used only when no shared dependency exports the package.
   */
  method ResolveExportPackageVersion(info: BundleInfo, name: string) returns (version: Option<string>)
    ensures FirstSharedExporter(info.resolver, name).Some? ==>
              version == info.lib.getOSGiPackageVersion(FirstSharedExporter(info.resolver, name).value, name)
    ensures FirstSharedExporter(info.resolver, name).None? && Exports(info.resolver.rootTree, name) ==>
              version == info.lib.getOSGiPackageVersion(info.resolver.rootTree, name)
    ensures FirstSharedExporter(info.resolver, name).None? && !Exports(info.resolver.rootTree, name) ==>
              version == None
  {
    var dependencies := info.resolver.sharedDependencies;
    dependencies := dependencies + [info.resolver.rootTree];
    var dependency := ResolvePackageDependencyIn(name, dependencies);
    FindExporterAppend(info.resolver.sharedDependencies, info.resolver.rootTree, name);
    if dependency.Some? {
      version := info.lib.getOSGiPackageVersion(dependency.value, name);
    } else {
      version := None;
    }
  }

  /**
   * `isPackageOptional(packageName)`: an unknown package is optional; a known
   * one is optional when its node is optional in the tree and the optional
   * dependency filter matches it (a node the filter does not match is
   * reported as required).
   */
  function IsPackageOptional(info: BundleInfo, name: string): (optional: bool)
    ensures optional <==>
              (forall i :: 0 <= i < |info.resolver.sharedDependencies| ==>
                 !Exports(info.resolver.sharedDependencies[i], name)) ||
              (exists i :: FirstExporterAt(info.resolver.sharedDependencies, name, i) &&
                 info.resolver.sharedDependencies[i].thisOrDescendantOptional &&
                 info.resolver.optionalDependencyFilter(info.resolver.sharedDependencies[i]))
  {
    match FirstSharedExporter(info.resolver, name)
    case None => true
    case Some(d) =>
      FindExporterFound(info.resolver.sharedDependencies, name);
      d.thisOrDescendantOptional && info.resolver.optionalDependencyFilter(d)
  }

  // ---------------------------------------------------------------------------
  // Precision of the synthesized range

  /**
   * The precision `toVersionRange` passes on: the manifest property when it is
   * non-empty, parses as an `int` and lies in 0..4; the default otherwise.
   */
  function VersionRangeDigits(value: Option<string>, notEmpty: string -> bool): (digits: int)
    ensures 0 <= digits <= MaxVersionDigits
    ensures digits != DefaultVersionDigits ==>
              value.Some? && notEmpty(value.value) && ParseInt(value.value) == Some(digits)
  {
    if value.Some? && notEmpty(value.value) && ParseInt(value.value).Some?
       && 0 <= ParseInt(value.value).value <= MaxVersionDigits
    then ParseInt(value.value).value
    else DefaultVersionDigits
  }

  /** What `toVersionRange(version)` returns. */
  function VersionRange(info: BundleInfo, version: string): string
  {
    info.lib.toVersionRange(version, VersionRangeDigits(info.resolver.versionRangeDigits, info.lib.notEmpty))
  }

  /**
   * `toVersionRange(version)`: start from the default precision, take the
   * manifest property when it is non-empty and numeric (a NumberFormatException
   * is logged and ignored), fall back to the default when the value is out of
   * 0..4, and hand the result to `Versions.toVersionRange`.
   */
  method ToVersionRange(info: BundleInfo, version: string) returns (range: string)
    ensures range == VersionRange(info, version)
  {
    var digits := DefaultVersionDigits;
    var value := info.resolver.versionRangeDigits;
    if NotEmpty(info.lib, value) {
      var parsed := ParseInt(value.value);
      if parsed.Some? {
        digits := parsed.value;
      } else {
        // NumberFormatException: logged, the default is kept
      }
      if digits < 0 || digits > MaxVersionDigits {
        // out of range: logged, the default is used
        digits := DefaultVersionDigits;
      }
    }
    range := info.lib.toVersionRange(version, digits);
  }

  // ---------------------------------------------------------------------------
  // Import-side version constraint

  /** The version of an Export-Package clause: `version`, else `specification-version`. */
  function ClauseVersion(attributes: map<string, string>): (v: Option<string>)
    ensures v.Some? ==> v.value in attributes.Values
    ensures v.None? <==> VersionAttribute !in attributes && SpecificationVersionAttribute !in attributes
    ensures VersionAttribute in attributes ==> v == Some(attributes[VersionAttribute])
    ensures VersionAttribute !in attributes && SpecificationVersionAttribute in attributes ==>
              v == Some(attributes[SpecificationVersionAttribute])
  {
    if VersionAttribute in attributes then Some(attributes[VersionAttribute])
    else if SpecificationVersionAttribute in attributes then Some(attributes[SpecificationVersionAttribute])
    else None
  }

  /**
   * The version a bundle's own Export-Package header gives `name`:
   * `Success(None)` when the node is not a bundle, the header is missing or
   * empty, or it has no clause for the package or no version on that clause;
   * `Failure` when the header cannot be parsed.
   */
  function ExportedVersion(lib: Library, d: DependencyTree, name: string): (r: Result<Option<string>, HeaderError>)
    ensures var header := ManifestEntry(d, ExportPackageHeader);
            r == Success(None) <==>
              !d.isBundle || header.None? || !lib.notEmpty(header.value) ||
              (lib.parseHeader(header.value).Some? &&
               (name !in lib.parseHeader(header.value).value ||
                (VersionAttribute !in lib.parseHeader(header.value).value[name] &&
                 SpecificationVersionAttribute !in lib.parseHeader(header.value).value[name])))
    ensures var header := ManifestEntry(d, ExportPackageHeader);
            r.Failure? <==>
              d.isBundle && header.Some? && lib.notEmpty(header.value) && lib.parseHeader(header.value).None?
    ensures r.Success? && r.value.Some? ==>
              exists clauses :: lib.parseHeader(d.manifest[ExportPackageHeader]) == Some(clauses) &&
                name in clauses && r.value == ClauseVersion(clauses[name])
  {
    var header := ManifestEntry(d, ExportPackageHeader);
    if !d.isBundle || !NotEmpty(lib, header) then Success(None)
    else match lib.parseHeader(header.value)
      case None => Failure(MalformedHeader(header.value))
      case Some(clauses) =>
        if name in clauses then Success(ClauseVersion(clauses[name])) else Success(None)
  }

  /**
   * `resolvePackageVersion(packageName)`: the import constraint for a package,
   * `Success(None)` meaning no constraint (`null`).
   */
  function ResolvePackageVersion(info: BundleInfo, name: string): (r: Result<Option<string>, HeaderError>)
    ensures FirstSharedExporter(info.resolver, name).None? ==> r == Success(None)
    ensures r == Success(None) <==>
              FirstSharedExporter(info.resolver, name).None? ||
              (ExportedVersion(info.lib, FirstSharedExporter(info.resolver, name).value, name) == Success(None) &&
               FirstSharedExporter(info.resolver, name).value.version.None?)
    ensures r.Failure? <==>
              FirstSharedExporter(info.resolver, name).Some? &&
              ExportedVersion(info.lib, FirstSharedExporter(info.resolver, name).value, name).Failure?
    ensures r.Success? && r.value.Some? ==> exists v :: r.value.value == VersionRange(info, v)
  {
    match FirstSharedExporter(info.resolver, name)
    case None => Success(None)
    case Some(dependency) =>
      match ExportedVersion(info.lib, dependency, name)
      case Failure(e) => Failure(e)
      case Success(Some(version)) => Success(Some(VersionRange(info, version)))
      case Success(None) =>
        match dependency.version
        case Some(version) => Success(Some(VersionRange(info, info.lib.clean(version))))
        case None => Success(None)
  }

  // ---------------------------------------------------------------------------
  // Properties

  /** An unknown package gets no constraint and is optional. */
  lemma UnknownPackage(info: BundleInfo, name: string)
    requires forall i :: 0 <= i < |info.resolver.sharedDependencies| ==> !Exports(info.resolver.sharedDependencies[i], name)
    ensures ResolvePackageVersion(info, name) == Success(None)
    ensures IsPackageOptional(info, name)
  {
  }

  /** A package whose first exporter the filter does not match is never optional. */
  lemma UnmatchedDependencyIsRequired(info: BundleInfo, name: string, i: int)
    requires FirstExporterAt(info.resolver.sharedDependencies, name, i)
    requires !info.resolver.optionalDependencyFilter(info.resolver.sharedDependencies[i])
    ensures !IsPackageOptional(info, name)
  {
  }

  /** The `version` attribute of the exporter's Export-Package clause decides the constraint. */
  lemma VersionAttributeDecides(info: BundleInfo, name: string, i: int, header: string, clauses: Clauses)
    requires FirstExporterAt(info.resolver.sharedDependencies, name, i)
    requires info.resolver.sharedDependencies[i].isBundle
    requires ManifestEntry(info.resolver.sharedDependencies[i], ExportPackageHeader) == Some(header)
    requires info.lib.notEmpty(header) && info.lib.parseHeader(header) == Some(clauses)
    requires name in clauses && VersionAttribute in clauses[name]
    ensures ResolvePackageVersion(info, name) == Success(Some(VersionRange(info, clauses[name][VersionAttribute])))
  {
    FindExporterAt(info.resolver.sharedDependencies, name, i);
  }

  /** Without a `version` attribute, `specification-version` decides the constraint. */
  lemma SpecificationVersionFallback(info: BundleInfo, name: string, i: int, header: string, clauses: Clauses)
    requires FirstExporterAt(info.resolver.sharedDependencies, name, i)
    requires info.resolver.sharedDependencies[i].isBundle
    requires ManifestEntry(info.resolver.sharedDependencies[i], ExportPackageHeader) == Some(header)
    requires info.lib.notEmpty(header) && info.lib.parseHeader(header) == Some(clauses)
    requires name in clauses && VersionAttribute !in clauses[name]
    requires SpecificationVersionAttribute in clauses[name]
    ensures ResolvePackageVersion(info, name) ==
            Success(Some(VersionRange(info, clauses[name][SpecificationVersionAttribute])))
  {
    FindExporterAt(info.resolver.sharedDependencies, name, i);
  }

  /** When the Export-Package header gives nothing, the cleaned declared version decides. */
  lemma DeclaredVersionFallback(info: BundleInfo, name: string, i: int, declared: string)
    requires FirstExporterAt(info.resolver.sharedDependencies, name, i)
    requires ExportedVersion(info.lib, info.resolver.sharedDependencies[i], name) == Success(None)
    requires info.resolver.sharedDependencies[i].version == Some(declared)
    ensures ResolvePackageVersion(info, name) == Success(Some(VersionRange(info, info.lib.clean(declared))))
  {
    FindExporterAt(info.resolver.sharedDependencies, name, i);
  }

  /** A node that is not a bundle always takes its constraint from its cleaned declared version. */
  lemma NonBundleUsesDeclaredVersion(info: BundleInfo, name: string, i: int, declared: string)
    requires FirstExporterAt(info.resolver.sharedDependencies, name, i)
    requires !info.resolver.sharedDependencies[i].isBundle
    requires info.resolver.sharedDependencies[i].version == Some(declared)
    ensures ResolvePackageVersion(info, name) == Success(Some(VersionRange(info, info.lib.clean(declared))))
  {
    FindExporterAt(info.resolver.sharedDependencies, name, i);
  }

  /** The import side never looks at the root: replacing it changes no import answer. */
  lemma ImportSideIgnoresRoot(info: BundleInfo, name: string, root: DependencyTree)
    ensures var other := info.(resolver := info.resolver.(rootTree := root));
            ResolvePackageVersion(other, name) == ResolvePackageVersion(info, name) &&
            IsPackageOptional(other, name) == IsPackageOptional(info, name)
  {
  }

  /**
   * The precision for a property written as a decimal integer: the integer
   * itself when it is in 0..4 and the property counts as non-empty, and the
   * default otherwise (out of range, or too large for an `int`).
   */
  lemma VersionRangeDigitsOfNumeral(n: int, notEmpty: string -> bool)
    ensures VersionRangeDigits(Some(IntToDecimal(n)), notEmpty) ==
            if notEmpty(IntToDecimal(n)) && 0 <= n <= MaxVersionDigits then n else DefaultVersionDigits
  {
    ParseIntOfDecimal(n);
  }

  /**
   * A property that is not a numeral (after an optional sign, no digits, or a
   * character that is not a digit) leaves the default in place.
   */
  lemma VersionRangeDigitsOfNonNumeric(s: string, notEmpty: string -> bool)
    requires !IsNumeral(s)
    ensures VersionRangeDigits(Some(s), notEmpty) == DefaultVersionDigits
  {
  }

  /** "7", "abc", "2.0", "1x", "+" and "-" all fall back to the default; "2" and "+2" are taken as 2. */
  lemma VersionRangeDigitsExamples(notEmpty: string -> bool)
    ensures VersionRangeDigits(Some("7"), notEmpty) == DefaultVersionDigits
    ensures VersionRangeDigits(Some("abc"), notEmpty) == DefaultVersionDigits
    ensures VersionRangeDigits(None, notEmpty) == DefaultVersionDigits
    ensures VersionRangeDigits(Some("2.0"), notEmpty) == DefaultVersionDigits
    ensures VersionRangeDigits(Some("1x"), notEmpty) == DefaultVersionDigits
    ensures VersionRangeDigits(Some("+"), notEmpty) == DefaultVersionDigits
    ensures VersionRangeDigits(Some("-"), notEmpty) == DefaultVersionDigits
    ensures notEmpty("2") ==> VersionRangeDigits(Some("2"), notEmpty) == 2
    ensures notEmpty("+2") ==> VersionRangeDigits(Some("+2"), notEmpty) == 2
  {
  }
}
