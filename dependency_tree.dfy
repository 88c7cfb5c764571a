/**
 * Resolved dependency nodes and the first-match-wins scan that finds the node
 * exporting a Java package.
 */
module Dependencies {
  import opened Wrappers

  /**
   * One resolved dependency. `coordinates` is its group:artifact:version
   * identity, so the filter and the version lookup that receive the node can
   * tell apart nodes that agree on everything else. `packages` is what
   * `getPackages()` yields: `None`
   * when reading the artifact raises IOException. `manifest` holds the raw
   * manifest headers that `getManifestEntry` reads; `version` is the declared
   * (Maven) version, `None` when absent.
   */
  datatype DependencyTree = DependencyTree(
    coordinates: string,
    packages: Option<set<string>>,
    isBundle: bool,
    manifest: map<string, string>,
    version: Option<string>,
    thisOrDescendantOptional: bool)

  /** `getManifestEntry(header)`: `None` when the manifest lacks the header. */
  function ManifestEntry(d: DependencyTree, header: string): Option<string>
  {
    if header in d.manifest then Some(d.manifest[header]) else None
  }

  /** The node's package set can be read and contains `name`. */
  predicate Exports(d: DependencyTree, name: string)
  {
    d.packages.Some? && name in d.packages.value
  }

  /** Position `i` holds an exporter of `name` and no earlier position does. */
  predicate FirstExporterAt(deps: seq<DependencyTree>, name: string, i: int)
  {
    0 <= i < |deps| && Exports(deps[i], name) &&
    forall j :: 0 <= j < i ==> !Exports(deps[j], name)
  }

  /** The node the scan yields: the first exporter of `name`, in list order. */
  function FindExporter(deps: seq<DependencyTree>, name: string): (r: Option<DependencyTree>)
    ensures r.Some? ==> r.value in deps && Exports(r.value, name)
    ensures r.None? <==> forall i :: 0 <= i < |deps| ==> !Exports(deps[i], name)
  {
    if |deps| == 0 then None
    else if Exports(deps[0], name) then Some(deps[0])
    else
      var rest := FindExporter(deps[1..], name);
      assert forall i :: 1 <= i < |deps| ==> deps[i] == deps[1..][i - 1];
      rest
  }

  /** The first exporter in list order is the one found. */
  lemma {:induction false} FindExporterAt(deps: seq<DependencyTree>, name: string, i: int)
    requires FirstExporterAt(deps, name, i)
    ensures FindExporter(deps, name) == Some(deps[i])
  {
    if i > 0 {
      assert !Exports(deps[0], name);
      assert FirstExporterAt(deps[1..], name, i - 1) by {
        forall j | 0 <= j < i - 1 ensures !Exports(deps[1..][j], name) {
          assert deps[1..][j] == deps[j + 1];
        }
      }
      FindExporterAt(deps[1..], name, i - 1);
    }
  }

  /** Whatever is found sits at the first exporting position. */
  lemma {:induction false} FindExporterFound(deps: seq<DependencyTree>, name: string)
    requires FindExporter(deps, name).Some?
    ensures exists i :: FirstExporterAt(deps, name, i) && deps[i] == FindExporter(deps, name).value
  {
    if Exports(deps[0], name) {
      assert FirstExporterAt(deps, name, 0);
    } else {
      FindExporterFound(deps[1..], name);
      var k :| FirstExporterAt(deps[1..], name, k) && deps[1..][k] == FindExporter(deps[1..], name).value;
      assert FirstExporterAt(deps, name, k + 1) by {
        forall j | 0 < j < k + 1 ensures !Exports(deps[j], name) {
          assert deps[j] == deps[1..][j - 1];
        }
      }
    }
  }

  /** A node whose package set cannot be read changes nothing: it is as if it were absent. */
  lemma {:induction false} UnreadableNodeSkipped(before: seq<DependencyTree>, broken: DependencyTree,
                                                 after: seq<DependencyTree>, name: string)
    requires broken.packages.None?
    ensures FindExporter(before + [broken] + after, name) == FindExporter(before + after, name)
  {
    if |before| == 0 {
      assert before + [broken] + after == [broken] + after;
      assert ([broken] + after)[1..] == after;
      assert before + after == after;
    } else {
      assert (before + [broken] + after)[0] == before[0];
      assert (before + after)[0] == before[0];
      assert (before + [broken] + after)[1..] == before[1..] + [broken] + after;
      assert (before + after)[1..] == before[1..] + after;
      UnreadableNodeSkipped(before[1..], broken, after, name);
    }
  }

  /** Appending a node to the list only matters when nothing before it exports `name`. */
  lemma {:induction false} FindExporterAppend(deps: seq<DependencyTree>, last: DependencyTree, name: string)
    ensures FindExporter(deps + [last], name) ==
            if FindExporter(deps, name).Some? then FindExporter(deps, name)
            else if Exports(last, name) then Some(last)
            else None
  {
    if |deps| == 0 {
      assert deps + [last] == [last];
      assert [last][1..] == [];
    } else {
      assert (deps + [last])[0] == deps[0];
      assert (deps + [last])[1..] == deps[1..] + [last];
      FindExporterAppend(deps[1..], last, name);
    }
  }

  /**
   * `resolvePackageDependency(packageName, dependencies)`: walk the list in
   * order and return the first node whose packages contain the name. A node
   * whose `getPackages()` throws IOException is logged and skipped; the
   * exception never leaves the scan.
   */
  method ResolvePackageDependencyIn(name: string, dependencies: seq<DependencyTree>)
    returns (r: Option<DependencyTree>)
    ensures r == FindExporter(dependencies, name)
  {
    for i := 0 to |dependencies|
      invariant forall j :: 0 <= j < i ==> !Exports(dependencies[j], name)
    {
      var dependency := dependencies[i];
      match dependency.packages
      case None =>
        // IOException from getPackages(): logged, the scan goes on
      case Some(packages) =>
        if name in packages {
          FindExporterAt(dependencies, name, i);
          return Some(dependency);
        }
    }
    return None;
  }
}
