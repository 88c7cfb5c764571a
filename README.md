# Package-version resolution of a Fuse Application Bundle

This project models the part of `FabBundleInfoImpl` that works out which
dependency provides a Java package and what OSGi version constraint the
generated bundle manifest should carry for it. It has three parts:

- **Dependency scan** (`Dependencies`). A first-match-wins walk over
  an ordered list of dependency nodes. A node whose package set cannot be
  read (`getPackages()` throws `IOException`) is logged and skipped.
- **Import and export side** (`FabBundleInfo`).
  - The import side (`resolvePackageVersion`, `isPackageOptional`) scans only
    the shared dependencies.
  - The export side (`resolveExportPackageVersion`) scans a copy of them with
    the root tree appended last.
  - The import constraint comes from the first defined source in this order:
    the `version` attribute of the exporter's Export-Package clause, then its
    `specification-version` attribute, then the node's declared version after
    cleaning. If none is defined there is no constraint.
- **Range precision** (`FabBundleInfo.ToVersionRange`). The digit precision
  comes from a manifest property. The default is used when the property is
  empty, not a number, or outside 0..4. `Integer.parseInt` is modelled in
  `JavaInt`.

Header and attribute names follow section 3.6.5 of the OSGi Core
Specification (Release 4).

Some calls go into code this model does not contain: bnd's
`Analyzer.parseHeader`, Felix's `VersionCleaner.clean`, `Versions.toVersionRange`,
`Versions.getOSGiPackageVersion` and `Strings.notEmpty`. They are supplied as the
function fields of `FabBundleInfo.Library`, so every property here holds
whatever those functions do. `parseHeader` returns `None` when it throws.
The source does not catch that exception, so `ResolvePackageVersion` returns
`Failure` in that case.

Files: `wrappers.dfy` (Option, Result), `java_int.dfy`, `dependency_tree.dfy`,
`fab_bundle_info.dfy`.

## Model

| member | source | states |
|---|---|---|
| Dependencies.FindExporter | fab/fab-osgi/src/main/java/org/fusesource/fabric/fab/osgi/internal/FabBundleInfoImpl.java:161-173 | the node found is in the list and exports the name; nothing is found exactly when no node with a readable package set contains the name |
| Dependencies.ResolvePackageDependencyIn | fab/fab-osgi/src/main/java/org/fusesource/fabric/fab/osgi/internal/FabBundleInfoImpl.java:161-173 | the loop with its IOException skip returns exactly the first exporter in list order, or none |
| Dependencies.FindExporterAt | fab/fab-osgi/src/main/java/org/fusesource/fabric/fab/osgi/internal/FabBundleInfoImpl.java:162-167 | if position i exports the name and no earlier position does, the node at i is the one returned |
| Dependencies.FindExporterFound | fab/fab-osgi/src/main/java/org/fusesource/fabric/fab/osgi/internal/FabBundleInfoImpl.java:162-172 | whatever is returned sits at a position where every earlier node lacks the name or could not be read |
| Dependencies.UnreadableNodeSkipped | fab/fab-osgi/src/main/java/org/fusesource/fabric/fab/osgi/internal/FabBundleInfoImpl.java:163-170 | inserting a node whose package set throws anywhere in the list never changes the result, so a later exporter is still found |
| Dependencies.FindExporterAppend | fab/fab-osgi/src/main/java/org/fusesource/fabric/fab/osgi/internal/FabBundleInfoImpl.java:134-139 | with a node appended, an exporter earlier in the list wins; the appended node is chosen only when no earlier node exports the name; otherwise none |
| FabBundleInfo.ResolvePackageDependency | fab/fab-osgi/src/main/java/org/fusesource/fabric/fab/osgi/internal/FabBundleInfoImpl.java:157-159 | the import-side lookup scans the shared dependencies only; a result is a shared dependency that exports the name |
| FabBundleInfo.ResolveExportPackageVersion | fab/fab-osgi/src/main/java/org/fusesource/fabric/fab/osgi/internal/FabBundleInfoImpl.java:132-145 | a shared exporter decides the export version; the root decides only when no shared dependency exports the package; no version when neither does |
| FabBundleInfo.IsPackageOptional | fab/fab-osgi/src/main/java/org/fusesource/fabric/fab/osgi/internal/FabBundleInfoImpl.java:147-155 | optional exactly when no shared dependency with a readable package set exports the package, or the first one that does is optional in the tree and matched by the filter |
| FabBundleInfo.UnmatchedDependencyIsRequired | fab/fab-osgi/src/main/java/org/fusesource/fabric/fab/osgi/internal/FabBundleInfoImpl.java:150-153 | a package whose first exporter the filter does not match is never optional, whatever the tree says |
| FabBundleInfo.UnknownPackage | fab/fab-osgi/src/main/java/org/fusesource/fabric/fab/osgi/internal/FabBundleInfoImpl.java:102-129 | a package no shared dependency exports gets no constraint and is optional |
| FabBundleInfo.VersionRangeDigits | fab/fab-osgi/src/main/java/org/fusesource/fabric/fab/osgi/internal/FabBundleInfoImpl.java:176-188 | the precision is always in 0..4; it differs from the default only when the property is non-empty and parses to exactly that value |
| FabBundleInfo.ToVersionRange | fab/fab-osgi/src/main/java/org/fusesource/fabric/fab/osgi/internal/FabBundleInfoImpl.java:175-190 | the step-by-step update of `digits` hands `Versions.toVersionRange` exactly the precision `VersionRangeDigits` defines |
| FabBundleInfo.VersionRangeDigitsOfNumeral | fab/fab-osgi/src/main/java/org/fusesource/fabric/fab/osgi/internal/FabBundleInfoImpl.java:176-188 | for a property spelling any integer: that integer when it is in 0..4 and the property is non-empty, else the default (also when it overflows an int) |
| FabBundleInfo.VersionRangeDigitsOfNonNumeric | fab/fab-osgi/src/main/java/org/fusesource/fabric/fab/osgi/internal/FabBundleInfoImpl.java:179-183 | any property that is not an optional sign followed by ASCII digits ("2.0", "1x", "+", "-", "abc") leaves the default in place without any error |
| FabBundleInfo.VersionRangeDigitsExamples | fab/fab-osgi/src/main/java/org/fusesource/fabric/fab/osgi/internal/FabBundleInfoImpl.java:175-190 | "7", "abc", "2.0", "1x", "+", "-" and an absent property give the default; "2" and "+2" give 2 |
| FabBundleInfo.ClauseVersion | fab/fab-osgi/src/main/java/org/fusesource/fabric/fab/osgi/internal/FabBundleInfoImpl.java:112-115 | `version` is preferred over `specification-version`; `specification-version` is used when `version` is absent; nothing only when both are absent |
| FabBundleInfo.ExportedVersion | fab/fab-osgi/src/main/java/org/fusesource/fabric/fab/osgi/internal/FabBundleInfoImpl.java:106-121 | the header path gives nothing exactly when the node is not a bundle, the header is absent or empty, or the parsed header has no clause for the package or no version attribute on it; it fails exactly when a bundle's non-empty header makes the parser throw; a version given is the clause version of the parsed header |
| FabBundleInfo.ResolvePackageVersion | fab/fab-osgi/src/main/java/org/fusesource/fabric/fab/osgi/internal/FabBundleInfoImpl.java:101-130 | no constraint exactly when nothing exports the package, or its header gives no version and it declares none; an error exactly when the exporter's Export-Package header fails to parse; any constraint is a synthesized range |
| FabBundleInfo.VersionAttributeDecides | fab/fab-osgi/src/main/java/org/fusesource/fabric/fab/osgi/internal/FabBundleInfoImpl.java:106-118 | the `version` attribute of the first exporter's clause, as a range, is the constraint |
| FabBundleInfo.SpecificationVersionFallback | fab/fab-osgi/src/main/java/org/fusesource/fabric/fab/osgi/internal/FabBundleInfoImpl.java:112-118 | without `version`, the `specification-version` attribute, as a range, is the constraint |
| FabBundleInfo.DeclaredVersionFallback | fab/fab-osgi/src/main/java/org/fusesource/fabric/fab/osgi/internal/FabBundleInfoImpl.java:122-127 | when the header path gives nothing, the cleaned declared version, as a range, is the constraint |
| FabBundleInfo.NonBundleUsesDeclaredVersion | fab/fab-osgi/src/main/java/org/fusesource/fabric/fab/osgi/internal/FabBundleInfoImpl.java:106-127 | the first exporter that is not a bundle takes its constraint from its cleaned declared version, whatever its manifest says |
| FabBundleInfo.ImportSideIgnoresRoot | fab/fab-osgi/src/main/java/org/fusesource/fabric/fab/osgi/internal/FabBundleInfoImpl.java:157-159 | replacing the root tree changes neither the import constraint nor optionality |
| JavaInt.ParseInt | fab/fab-osgi/src/main/java/org/fusesource/fabric/fab/osgi/internal/FabBundleInfoImpl.java:180 | `Integer.parseInt`: a parsed value fits in a 32-bit int and the text held a digit |
| JavaInt.ParseIntOfDecimal | fab/fab-osgi/src/main/java/org/fusesource/fabric/fab/osgi/internal/FabBundleInfoImpl.java:180 | an integer written in decimal parses back to itself exactly when it fits in an int |
| JavaInt.ParseIntRejectsNonNumeral | fab/fab-osgi/src/main/java/org/fusesource/fabric/fab/osgi/internal/FabBundleInfoImpl.java:180-181 | text that is not an optional sign followed by one or more ASCII digits raises NumberFormatException |
| JavaInt.ParseIntNonCanonical | fab/fab-osgi/src/main/java/org/fusesource/fabric/fab/osgi/internal/FabBundleInfoImpl.java:180 | a leading '+' and leading zeros do not change the parsed value ("+3", "03" and "3" agree; "-03" and "-3" agree) |

## Left out

- `getInputStream` is not modelled: bundle generation, URL streams and certificate checks.
- `getImports`, `getBundles`, `getFeatureURLs`, `getFeatures` and `getPomDetails` are pass-throughs and are not modelled.
- Logging is not modelled. The log calls in the IOException skip and in the precision fallback only mark where the source logs.
- The library calls (`Analyzer.parseHeader`, `VersionCleaner.clean`, `Versions.toVersionRange`, `Versions.getOSGiPackageVersion`, `Strings.notEmpty`) are not part of this model. They are parameters, so no property depends on their behaviour.
- `Versions.toVersionRange` is taken never to return `null`. Only `getOSGiPackageVersion` is allowed to return no version.
- `ServiceConstants` is not part of this model. `DEFAULT_VERSION_DIGITS` is taken as 3, and the name of the precision property is not needed: `ClassPathResolver.versionRangeDigits` holds its value.
- JavaInt.ParseInt: accepts only ASCII digits. Java also accepts other Unicode decimal digits.
- `getPackages()` either always throws for a node or never does. A transient IOException, one that happens in one scan but not in another, is not modelled. So `resolvePackageVersion` and `isPackageOptional`, which each rescan, always see the same exporter.
- A node is a value identified by its `coordinates`. The filter and `Versions.getOSGiPackageVersion` receive that value, not an object reference, so a filter keyed on object identity rather than on the node's data cannot be expressed.
- The copy step of `resolveExportPackageVersion` is not modelled. `ArrayList` copy-then-add becomes sequence concatenation on values. Because of that, the resolver's shared list cannot change, by construction, and no separate statement is proved about it.
- Exceptions from the library calls are not modelled, except the one from `parseHeader`.
- `FabConnectionFactory` is not modelled. It is URL-handler and configuration wiring.
- The DevOps wizard step is not modelled. It is UI wiring and network clients.
