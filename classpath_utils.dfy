/**
 * ClasspathUtils: the classpath of the running program, found by walking the
 * class loader chain and reading java.class.path, then split into
 * directories and archives. The host environment is an explicit value.
 */
module ClasspathUtils {
  import opened Wrappers
  import opened Strings
  import opened Split
  import Files

  /** The class name of the JBoss loader whose classpath is read through getClasspath(). */
  const JBOSS_LOADER_CLASS := "org.jboss.mx.loading.UnifiedClassLoader3"

  /** The placeholder in common.loader that stands for the catalina.home value. */
  const PATH_DECLARATION := "${catalina.home}"

  /**
   * A class loader as the walk sees it. A URLClassLoader has its class name,
   * the paths of the URLs getURLs() returns, what the reflective call to
   * getClasspath() yields (None when the lookup or the invocation throws)
   * and whether getParent() throws a SecurityException. Any other loader
   * ends the walk.
   */
  datatype ClassLoader =
    | UrlClassLoader(className: string, urlPaths: seq<string>, jbossClasspath: Option<seq<string>>, parentDenied: bool)
    | OtherClassLoader

  /**
   * What the code reads from its host: the context class loader followed by
   * its ancestors (the parent of the last one is null), the java.class.path
   * and path.separator properties, the optional catalina.home and
   * common.loader properties, and the filesystem's answers to
   * File.isDirectory and File.isFile.
   */
  datatype Environment = Environment(
    loaders: seq<ClassLoader>,
    classPath: string,
    pathSeparator: string,
    catalinaHome: Option<string>,
    commonLoader: Option<string>,
    isDirectory: string -> bool,
    isFile: string -> bool)

  /** No element occurs twice. */
  predicate NoDuplicates(s: seq<string>) {
    forall i, j :: 0 <= i < j < |s| ==> s[i] != s[j]
  }

  /** cs holds every element of raw exactly once, in some order. */
  ghost predicate Arranges(cs: seq<string>, raw: seq<string>) {
    NoDuplicates(cs) && forall c :: c in cs <==> c in raw
  }

  /** Every path as java.io.File normalises it. */
  function NormalizeAll(paths: seq<string>): seq<string>
  {
    if paths == [] then [] else NormalizeAll(paths[..|paths| - 1]) + [Files.Normalize(paths[|paths| - 1])]
  }

  /** NormalizeAll normalises each path in its place. */
  lemma {:induction false} NormalizeAllPointwise(paths: seq<string>)
    ensures |NormalizeAll(paths)| == |paths|
    ensures forall i :: 0 <= i < |paths| ==> NormalizeAll(paths)[i] == Files.Normalize(paths[i])
  {
    if paths != [] {
      NormalizeAllPointwise(paths[..|paths| - 1]);
    }
  }

  // ---- getUrlClassLoaderClasspathComponents ----

  /** The URL paths a URLClassLoader exposes: getClasspath() for the JBoss loader (nothing when that fails), getURLs() otherwise. */
  function UrlPaths(ucl: ClassLoader): seq<string>
    requires ucl.UrlClassLoader?
  {
    if ucl.className == JBOSS_LOADER_CLASS then
      match ucl.jbossClasspath
      case Some(paths) => paths
      case None => []
    else ucl.urlPaths
  }

  /** The components one URLClassLoader contributes (a loader of another kind is never asked). */
  function LoaderComponents(ucl: ClassLoader): seq<string>
  {
    if ucl.UrlClassLoader? then NormalizeAll(UrlPaths(ucl)) else []
  }

  /**
   * getUrlClassLoaderClasspathComponents: the normalised path of every URL
   * the loader exposes, in order; a JBoss loader whose getClasspath() cannot
   * be looked up or invoked contributes nothing.
   */
  method GetUrlClassLoaderClasspathComponents(ucl: ClassLoader) returns (components: seq<string>)
    requires ucl.UrlClassLoader?
    ensures components == LoaderComponents(ucl)
    ensures ucl.className != JBOSS_LOADER_CLASS ==>
      |components| == |ucl.urlPaths| &&
      forall i :: 0 <= i < |components| ==> components[i] == Files.Normalize(ucl.urlPaths[i])
    ensures ucl.className == JBOSS_LOADER_CLASS && ucl.jbossClasspath.None? ==> components == []
    ensures ucl.className == JBOSS_LOADER_CLASS && ucl.jbossClasspath.Some? ==>
      |components| == |ucl.jbossClasspath.value| &&
      forall i :: 0 <= i < |components| ==> components[i] == Files.Normalize(ucl.jbossClasspath.value[i])
  {
    components := [];
    var urls: seq<string> := [];
    if ucl.className == JBOSS_LOADER_CLASS {
      match ucl.jbossClasspath {
        case Some(paths) => urls := paths;
        case None => // the failure is logged and swallowed
      }
    } else {
      urls := ucl.urlPaths;
    }
    for i := 0 to |urls|
      invariant |components| == i
      invariant forall k :: 0 <= k < i ==> components[k] == Files.Normalize(urls[k])
    {
      components := components + [Files.Normalize(urls[i])];
    }
    NormalizeAllPointwise(urls);
  }

  // ---- The loader walk ----

  /**
   * The loaders the walk visits: from the context loader it follows parent
   * links while the loader is a URLClassLoader; the first null or other
   * loader ends it, and so does a getParent() that throws, after the loader
   * that threw.
   */
  function Walked(chain: seq<ClassLoader>): seq<ClassLoader>
  {
    if chain == [] || !chain[0].UrlClassLoader? then []
    else if chain[0].parentDenied then [chain[0]]
    else [chain[0]] + Walked(chain[1..])
  }

  /**
   * The walk visits a prefix of the chain, made of URLClassLoaders only, of
   * which only the last may have refused getParent(); it stops short of the
   * end of the chain only at a loader of another kind or after a refusal.
   */
  lemma {:induction false} WalkedIsLongestPrefix(chain: seq<ClassLoader>)
    ensures var r := Walked(chain);
      && |r| <= |chain| && r == chain[..|r|]
      && (forall i :: 0 <= i < |r| ==> r[i].UrlClassLoader?)
      && (forall i :: 0 <= i < |r| - 1 ==> !r[i].parentDenied)
      && (|r| < |chain| ==> !chain[|r|].UrlClassLoader? || (|r| > 0 && r[|r| - 1].parentDenied))
  {
    if chain != [] && chain[0].UrlClassLoader? && !chain[0].parentDenied {
      var rest := Walked(chain[1..]);
      WalkedIsLongestPrefix(chain[1..]);
      assert chain[1..][..|rest|] == chain[1..|rest| + 1];
    }
  }

  /** The components of the given URLClassLoaders, one loader after the other. */
  function ComponentsOf(loaders: seq<ClassLoader>): seq<string>
  {
    if loaders == [] then [] else LoaderComponents(loaders[0]) + ComponentsOf(loaders[1..])
  }

  lemma ComponentsOfCons(first: ClassLoader, rest: seq<ClassLoader>)
    ensures ComponentsOf([first] + rest) == LoaderComponents(first) + ComponentsOf(rest)
  {
    assert ([first] + rest)[1..] == rest;
  }

  /**
   * A JBoss loader whose getClasspath() fails adds nothing, yet the walk
   * still goes on to its parent.
   */
  lemma FailedJBossLoaderIsPassedOver(chain: seq<ClassLoader>)
    requires |chain| > 0 && chain[0].UrlClassLoader? && !chain[0].parentDenied
    requires chain[0].className == JBOSS_LOADER_CLASS && chain[0].jbossClasspath.None?
    ensures Walked(chain) == [chain[0]] + Walked(chain[1..])
    ensures ComponentsOf(Walked(chain)) == ComponentsOf(Walked(chain[1..]))
  {
    ComponentsOfCons(chain[0], Walked(chain[1..]));
  }

  /** A loader whose getParent() throws still contributes its own components, and nothing after it is read. */
  lemma DeniedParentEndsWalk(chain: seq<ClassLoader>)
    requires |chain| > 0 && chain[0].UrlClassLoader? && chain[0].parentDenied
    ensures Walked(chain) == [chain[0]]
    ensures ComponentsOf(Walked(chain)) == LoaderComponents(chain[0])
  {
    ComponentsOfCons(chain[0], []);
    assert [chain[0]] + [] == [chain[0]];
  }

  // ---- getClasspathComponents ----

  /** The tokens of java.class.path, split at path.separator characters and normalised. */
  function ClasspathTokens(env: Environment): seq<string>
  {
    NormalizeAll(Tokens(env.classPath, env.pathSeparator))
  }

  /** Everything getClasspathComponents collects before removing duplicates: the walk's components, then the classpath tokens. */
  function CollectedComponents(env: Environment): seq<string>
  {
    ComponentsOf(Walked(env.loaders)) + ClasspathTokens(env)
  }

  /** new LinkedList(new HashSet(...)): each element once, in an order the model leaves open. */
  method ListOfSet(elements: set<string>) returns (list: seq<string>)
    ensures NoDuplicates(list)
    ensures forall x :: x in list <==> x in elements
    ensures |list| == |elements|
  {
    list := [];
    var remaining := elements;
    while remaining != {}
      invariant remaining <= elements
      invariant forall x :: x in list <==> x in elements && x !in remaining
      invariant NoDuplicates(list)
      invariant |list| + |remaining| == |elements|
      decreases |remaining|
    {
      var x :| x in remaining;
      list := list + [x];
      remaining := remaining - {x};
    }
  }

  /**
   * The first part of getClasspathComponents: the walk up the loader chain,
   * collecting each URLClassLoader's components.
   */
  method WalkLoaderChain(chain: seq<ClassLoader>) returns (collected: seq<string>)
    ensures collected == ComponentsOf(Walked(chain))
  {
    collected := [];
    // i == |chain| plays the part of a null loader
    var i := 0;
    ghost var walked: seq<ClassLoader> := [];
    while i < |chain| && chain[i].UrlClassLoader?
      invariant 0 <= i <= |chain|
      invariant walked + Walked(chain[i..]) == Walked(chain)
      invariant collected == ComponentsOf(walked)
      decreases |chain| - i
    {
      var ucl := chain[i];
      var urlComponents := GetUrlClassLoaderClasspathComponents(ucl);
      collected := collected + urlComponents;
      ComponentsOfSnoc(walked, ucl);
      WalkStep(chain, i, walked);
      walked := walked + [ucl];
      if ucl.parentDenied {
        i := |chain|;  // the SecurityException is caught and the walk ends
      } else {
        i := i + 1;
      }
    }
    WalkEnd(chain, i, walked);
  }

  /** One loader of the walk: its components are added and the walk goes on to its parent unless getParent() threw. */
  lemma WalkStep(chain: seq<ClassLoader>, i: nat, walked: seq<ClassLoader>)
    requires i < |chain| && chain[i].UrlClassLoader?
    requires walked + Walked(chain[i..]) == Walked(chain)
    ensures var next := if chain[i].parentDenied then |chain| else i + 1;
      (walked + [chain[i]]) + Walked(chain[next..]) == Walked(chain)
  {
    var next := if chain[i].parentDenied then |chain| else i + 1;
    assert Walked(chain[i..]) == [chain[i]] + Walked(chain[next..]) by {
      WalkedFrom(chain, i);
    }
  }

  /** Components of the loaders visited so far and of one more. */
  lemma {:induction false} ComponentsOfSnoc(walked: seq<ClassLoader>, last: ClassLoader)
    ensures ComponentsOf(walked + [last]) == ComponentsOf(walked) + LoaderComponents(last)
    decreases |walked|
  {
    if walked == [] {
      assert [] + [last] == [last] && [last][1..] == [];
    } else {
      assert (walked + [last])[1..] == walked[1..] + [last];
      ComponentsOfSnoc(walked[1..], last);
      ConcatAssociates(LoaderComponents(walked[0]), ComponentsOf(walked[1..]), LoaderComponents(last));
    }
  }

  lemma ConcatAssociates(a: seq<string>, b: seq<string>, c: seq<string>)
    ensures a + (b + c) == (a + b) + c
  {
  }

  /** The walk from a URLClassLoader visits it, then its parent unless getParent() threw. */
  lemma WalkedFrom(chain: seq<ClassLoader>, i: nat)
    requires i < |chain| && chain[i].UrlClassLoader?
    ensures var next := if chain[i].parentDenied then |chain| else i + 1;
      Walked(chain[i..]) == [chain[i]] + Walked(chain[next..])
  {
    assert chain[i..][0] == chain[i];
    if chain[i].parentDenied {
      assert chain[|chain|..] == [];
    } else {
      assert chain[i..][1..] == chain[i + 1..];
    }
  }

  /** Where the loop stops, the walk has nothing more to visit. */
  lemma WalkEnd(chain: seq<ClassLoader>, i: nat, walked: seq<ClassLoader>)
    requires i <= |chain| && (i < |chain| ==> !chain[i].UrlClassLoader?)
    requires walked + Walked(chain[i..]) == Walked(chain)
    ensures walked == Walked(chain)
  {
    if i < |chain| {
      assert chain[i..][0] == chain[i];
    } else {
      assert chain[i..] == [];
    }
    assert walked + [] == walked;
  }

  /**
   * The second part of getClasspathComponents: the StringTokenizer loop over
   * java.class.path, each token normalised by java.io.File.
   */
  method TokenizeClasspath(classpath: string, separator: string) returns (collected: seq<string>)
    ensures collected == NormalizeAll(Tokens(classpath, separator))
  {
    collected := [];
    var pos := 0;
    ghost var tokens: seq<string> := [];
    while true
      invariant pos <= |classpath|
      invariant tokens + Tokens(classpath[pos..], separator) == Tokens(classpath, separator)
      invariant collected == NormalizeAll(tokens)
      decreases |classpath| - pos
    {
      // hasMoreTokens skips the delimiters
      while pos < |classpath| && classpath[pos] in separator
        invariant pos <= |classpath|
        invariant tokens + Tokens(classpath[pos..], separator) == Tokens(classpath, separator)
      {
        TokensSkipDelimiter(classpath[pos..], separator);
        assert classpath[pos..][1..] == classpath[pos + 1..];
        pos := pos + 1;
      }
      if pos == |classpath| {
        break;
      }
      // nextToken reads up to the next delimiter
      var end := pos;
      while end < |classpath| && classpath[end] !in separator
        invariant pos <= end <= |classpath|
        invariant forall k :: pos <= k < end ==> classpath[k] !in separator
      {
        end := end + 1;
      }
      var token := classpath[pos..end];
      TokenStep(classpath, separator, pos, end, tokens);
      var component := Files.Normalize(token);
      collected := collected + [component];
      NormalizeAllSnoc(tokens, token);
      tokens := tokens + [token];
      pos := end;
    }
    assert classpath[pos..] == [];
    assert tokens == Tokens(classpath, separator);
  }

  /** A maximal run of non-delimiters at pos is the next token. */
  lemma TokenStep(classpath: string, separator: string, pos: nat, end: nat, tokens: seq<string>)
    requires pos < end <= |classpath|
    requires forall k :: pos <= k < end ==> classpath[k] !in separator
    requires end < |classpath| ==> classpath[end] in separator
    requires tokens + Tokens(classpath[pos..], separator) == Tokens(classpath, separator)
    ensures (tokens + [classpath[pos..end]]) + Tokens(classpath[end..], separator) == Tokens(classpath, separator)
  {
    var token := classpath[pos..end];
    assert classpath[pos..] == token + classpath[end..];
    TokensOfRun(token, classpath[end..], separator);
  }

  /** Normalising one more path. */
  lemma NormalizeAllSnoc(paths: seq<string>, path: string)
    ensures NormalizeAll(paths + [path]) == NormalizeAll(paths) + [Files.Normalize(path)]
  {
    assert (paths + [path])[..|paths|] == paths;
  }

  /**
   * getClasspathComponents: the components of the loader walk, then those of
   * java.class.path, every one exactly once.
   */
  method GetClasspathComponents(env: Environment) returns (components: seq<string>)
    ensures Arranges(components, CollectedComponents(env))
  {
    var fromLoaders := WalkLoaderChain(env.loaders);
    var fromClasspath := TokenizeClasspath(env.classPath, env.pathSeparator);
    var collected := fromLoaders + fromClasspath;
    components := ListOfSet(set c | c in collected);
  }

  // ---- getClasspathArchives and getClasspathDirectories ----

  /** The elements of paths that keep accepts, in their order. */
  function Filter(paths: seq<string>, keep: string -> bool): seq<string>
  {
    if paths == [] then []
    else Filter(paths[..|paths| - 1], keep) + (if keep(paths[|paths| - 1]) then [paths[|paths| - 1]] else [])
  }

  /** Filtering keeps exactly the accepted elements and introduces no duplicates. */
  lemma {:induction false} FilterKeepsAccepted(paths: seq<string>, keep: string -> bool)
    ensures forall x :: x in Filter(paths, keep) <==> x in paths && keep(x)
    ensures NoDuplicates(paths) ==> NoDuplicates(Filter(paths, keep))
    decreases |paths|
  {
    if paths != [] {
      var init := paths[..|paths| - 1];
      FilterKeepsAccepted(init, keep);
      assert paths == init + [paths[|paths| - 1]];
    }
  }

  /** A filter of an arrangement of raw holds, once each, exactly the accepted elements of raw. */
  lemma FilterOfArrangement(cs: seq<string>, raw: seq<string>, keep: string -> bool)
    requires Arranges(cs, raw)
    ensures NoDuplicates(Filter(cs, keep))
    ensures forall x :: x in Filter(cs, keep) <==> x in raw && keep(x)
  {
    FilterKeepsAccepted(cs, keep);
  }

  /** An existing file whose name ends in .jar or .zip. */
  predicate IsArchive(env: Environment, path: string) {
    env.isFile(path) && (EndsWith(Files.GetName(path), ".jar") || EndsWith(Files.GetName(path), ".zip"))
  }

  function ArchiveTest(env: Environment): string -> bool {
    path => IsArchive(env, path)
  }

  /**
   * getClasspathArchives: the components that are existing .jar or .zip
   * files, in the order of the component list.
   */
  method GetClasspathArchives(env: Environment) returns (archives: seq<string>)
    ensures exists cs :: Arranges(cs, CollectedComponents(env)) && archives == Filter(cs, ArchiveTest(env))
    ensures NoDuplicates(archives)
    ensures forall p :: p in archives <==> p in CollectedComponents(env) && IsArchive(env, p)
  {
    archives := [];
    var components := GetClasspathComponents(env);
    for i := 0 to |components|
      invariant archives == Filter(components[..i], ArchiveTest(env))
    {
      assert components[..i + 1][..i] == components[..i];
      var possibleDir := components[i];
      if env.isFile(possibleDir)
        && (EndsWith(Files.GetName(possibleDir), ".jar") || EndsWith(Files.GetName(possibleDir), ".zip"))
      {
        archives := archives + [possibleDir];
      }
    }
    assert components[..|components|] == components;
    FilterOfArrangement(components, CollectedComponents(env), ArchiveTest(env));
  }

  /** The Tomcat paths, or nothing when getTomcatPaths yields null. */
  function TomcatExtra(env: Environment): seq<string>
    requires TomcatHomeHasNoDollar(env)
  {
    match TomcatPaths(env)
    case Some(paths) => paths
    case None => []
  }

  /**
   * getClasspathDirectories: the components that are existing directories,
   * in the order of the component list, followed by the Tomcat common.loader
   * paths, which are neither checked nor deduplicated.
   */
  method GetClasspathDirectories(env: Environment) returns (directories: seq<string>)
    requires TomcatHomeHasNoDollar(env)
    ensures exists cs :: Arranges(cs, CollectedComponents(env))
                      && directories == Filter(cs, env.isDirectory) + TomcatExtra(env)
    ensures var n := |directories| - |TomcatExtra(env)|;
      n >= 0 && directories[n..] == TomcatExtra(env) && NoDuplicates(directories[..n]) &&
      forall p :: p in directories[..n] <==> p in CollectedComponents(env) && env.isDirectory(p)
  {
    directories := [];
    var components := GetClasspathComponents(env);
    for i := 0 to |components|
      invariant directories == Filter(components[..i], env.isDirectory)
    {
      assert components[..i + 1][..i] == components[..i];
      var possibleDir := components[i];
      if env.isDirectory(possibleDir) {
        directories := directories + [possibleDir];
      }
    }
    assert components[..|components|] == components;
    FilterOfArrangement(components, CollectedComponents(env), env.isDirectory);
    ghost var found := directories;
    var tomcatPaths := GetTomcatPaths(env);
    if tomcatPaths.Some? {
      directories := directories + tomcatPaths.value;
    }
    assert directories == found + TomcatExtra(env);
    assert directories[..|found|] == found;
  }

  // ---- getTomcatPaths ----

  /**
   * The loop in getTomcatPaths, reached only when both properties are set,
   * is known to end when catalina.home brings in no '$'.
   */
  predicate TomcatHomeHasNoDollar(env: Environment) {
    env.catalinaHome.Some? && env.commonLoader.Some? ==> '$' !in env.catalinaHome.value
  }

  /** Without catalina.home or common.loader, any home value is accepted and no Tomcat path is added. */
  lemma UnsetPropertyAddsNothing(env: Environment)
    requires env.catalinaHome.None? || env.commonLoader.None?
    ensures TomcatHomeHasNoDollar(env)
    ensures TomcatPaths(env).None? && TomcatExtra(env) == []
  {
  }

  /** The placeholder opens with '$'. */
  lemma PlaceholderHasDollar()
    ensures Count(PATH_DECLARATION, '$') >= 1
  {
    assert PATH_DECLARATION[0] == '$';
    assert PATH_DECLARATION[0] in multiset(PATH_DECLARATION);
  }

  /** Every occurrence of the placeholder starts with '$'. */
  lemma OccurrenceStartsWithDollar(s: string, i: int)
    requires OccursAt(s, PATH_DECLARATION, i)
    ensures s[i] == '$'
  {
    assert s[i] == s[i..i + |PATH_DECLARATION|][0];
  }

  /** Replacing one occurrence of the placeholder by a value without '$' leaves fewer '$'. */
  lemma ReplacementRemovesDollar(s: string, start: int, home: string)
    requires OccursAt(s, PATH_DECLARATION, start) && '$' !in home
    ensures Count(ReplaceRange(s, start, start + |PATH_DECLARATION|, home), '$') < Count(s, '$')
  {
    assert s == s[..start] + PATH_DECLARATION + s[start + |PATH_DECLARATION|..];
    PlaceholderHasDollar();
  }

  /**
   * The expansion of common.loader: while the placeholder occurs, its
   * leftmost occurrence is replaced by the catalina.home value.
   */
  function ExpandCatalinaHome(s: string, home: string): string
    requires '$' !in home
    decreases Count(s, '$')
  {
    var start := IndexOf(s, PATH_DECLARATION);
    if start < 0 then s
    else
      IndexOfIsLeftmost(s, PATH_DECLARATION);
      ReplacementRemovesDollar(s, start, home);
      ExpandCatalinaHome(ReplaceRange(s, start, start + |PATH_DECLARATION|, home), home)
  }

  /** What the expansion gives back has no placeholder left, and a string without one comes out as it is. */
  lemma {:induction false} ExpansionRemovesPlaceholders(s: string, home: string)
    requires '$' !in home
    ensures !Contains(ExpandCatalinaHome(s, home), PATH_DECLARATION)
    ensures !Contains(s, PATH_DECLARATION) ==> ExpandCatalinaHome(s, home) == s
    decreases Count(s, '$')
  {
    var start := IndexOf(s, PATH_DECLARATION);
    IndexOfIsLeftmost(s, PATH_DECLARATION);
    if start >= 0 {
      ReplacementRemovesDollar(s, start, home);
      ExpansionRemovesPlaceholders(ReplaceRange(s, start, start + |PATH_DECLARATION|, home), home);
    }
  }

  /** Behind a prefix without '$', the placeholder is first found where it is first found in the rest. */
  lemma IndexAfterPlainPrefix(a: string, b: string)
    requires '$' !in a
    ensures var k := IndexOf(b, PATH_DECLARATION);
      IndexOf(a + b, PATH_DECLARATION) == if k < 0 then -1 else |a| + k
  {
    var s := a + b;
    var k := IndexOf(b, PATH_DECLARATION);
    var len := |PATH_DECLARATION|;
    IndexOfIsLeftmost(b, PATH_DECLARATION);
    IndexOfIsLeftmost(s, PATH_DECLARATION);
    forall j | 0 <= j < |a| ensures !OccursAt(s, PATH_DECLARATION, j) {
      if OccursAt(s, PATH_DECLARATION, j) {
        OccurrenceStartsWithDollar(s, j);
        assert false;
      }
    }
    forall j | |a| <= j ensures OccursAt(s, PATH_DECLARATION, j) == OccursAt(b, PATH_DECLARATION, j - |a|) {
      if j + len <= |s| {
        assert s[j..j + len] == b[j - |a|..j - |a| + len];
      }
    }
    if k < 0 {
      assert !Contains(s, PATH_DECLARATION);
    } else {
      IndexOfIs(s, PATH_DECLARATION, |a| + k);
    }
  }

  /** One round of the expansion: the leftmost placeholder is replaced. */
  lemma ExpandStep(s: string, home: string, start: int)
    requires '$' !in home && start == IndexOf(s, PATH_DECLARATION) && start >= 0
    ensures OccursAt(s, PATH_DECLARATION, start)
    ensures Count(ReplaceRange(s, start, start + |PATH_DECLARATION|, home), '$') < Count(s, '$')
    ensures ExpandCatalinaHome(s, home)
         == ExpandCatalinaHome(ReplaceRange(s, start, start + |PATH_DECLARATION|, home), home)
  {
    IndexOfIsLeftmost(s, PATH_DECLARATION);
    ReplacementRemovesDollar(s, start, home);
  }

  /** With no placeholder behind a prefix without '$', there is nothing to expand. */
  lemma PlainPrefixNoPlaceholder(a: string, b: string, home: string)
    requires '$' !in a && '$' !in home && IndexOf(b, PATH_DECLARATION) < 0
    ensures ExpandCatalinaHome(a + b, home) == a + ExpandCatalinaHome(b, home)
  {
    IndexAfterPlainPrefix(a, b);
  }

  /** Replacing a range behind a prefix is replacing it in what follows the prefix. */
  lemma ReplaceBehindPrefix(a: string, b: string, start: int, end: int, t: string)
    requires 0 <= start <= end <= |b|
    ensures ReplaceRange(a + b, |a| + start, |a| + end, t) == a + ReplaceRange(b, start, end, t)
  {
    assert (a + b)[..|a| + start] == a + b[..start];
    assert (a + b)[|a| + end..] == b[end..];
  }

  /** Behind a prefix without '$', one expansion round replaces the placeholder in the rest. */
  lemma PlainPrefixStep(a: string, b: string, home: string, k: int)
    requires '$' !in a && '$' !in home && k == IndexOf(b, PATH_DECLARATION) && k >= 0
    requires k + |PATH_DECLARATION| <= |b|
    ensures ExpandCatalinaHome(a + b, home)
         == ExpandCatalinaHome(a + ReplaceRange(b, k, k + |PATH_DECLARATION|, home), home)
  {
    var at := |a| + k;
    var len := |PATH_DECLARATION|;
    assert at == IndexOf(a + b, PATH_DECLARATION) by { IndexAfterPlainPrefix(a, b); }
    assert ExpandCatalinaHome(a + b, home)
        == ExpandCatalinaHome(ReplaceRange(a + b, at, at + len, home), home) by {
      ExpandStep(a + b, home, at);
    }
    assert ReplaceRange(a + b, at, at + len, home) == a + ReplaceRange(b, k, k + len, home) by {
      ReplaceBehindPrefix(a, b, k, k + len, home);
    }
  }

  /** A prefix without '$' passes through the expansion untouched. */
  lemma {:induction false} ExpandAfterPlainPrefix(a: string, b: string, home: string)
    requires '$' !in a && '$' !in home
    ensures ExpandCatalinaHome(a + b, home) == a + ExpandCatalinaHome(b, home)
    decreases Count(b, '$')
  {
    var k := IndexOf(b, PATH_DECLARATION);
    if k < 0 {
      PlainPrefixNoPlaceholder(a, b, home);
    } else {
      ExpandStep(b, home, k);
      PlainPrefixStep(a, b, home, k);
      ExpandAfterPlainPrefix(a, ReplaceRange(b, k, k + |PATH_DECLARATION|, home), home);
    }
  }

  /**
   * The Tomcat paths: null when catalina.home or common.loader is unset,
   * otherwise the expanded common.loader split at commas as String.split
   * does it.
   */
  function TomcatPaths(env: Environment): Option<seq<string>>
    requires TomcatHomeHasNoDollar(env)
  {
    if env.catalinaHome.None? || env.commonLoader.None? then None
    else Some(JavaSplit(ExpandCatalinaHome(env.commonLoader.value, env.catalinaHome.value), ','))
  }

  /**
   * getTomcatPaths: null unless both catalina.home and common.loader are
   * set; otherwise the do/while loop replaces the leftmost placeholder until
   * none is left, and the result is split at commas.
   */
  method GetTomcatPaths(env: Environment) returns (pathList: Option<seq<string>>)
    requires TomcatHomeHasNoDollar(env)
    ensures pathList == TomcatPaths(env)
    ensures pathList.None? <==> env.catalinaHome.None? || env.commonLoader.None?
  {
    if env.catalinaHome.None? {
      return None;  // not running Tomcat
    }
    var tomcatPath := env.catalinaHome.value;
    if env.commonLoader.None? {
      return None;  // no common classpath
    }
    var commonClasspath := env.commonLoader.value;
    var buffer := commonClasspath;
    var length := |PATH_DECLARATION|;
    var doneReplace := false;
    while !doneReplace
      invariant buffer == commonClasspath
      invariant ExpandCatalinaHome(commonClasspath, tomcatPath) == ExpandCatalinaHome(env.commonLoader.value, tomcatPath)
      invariant doneReplace ==> IndexOf(commonClasspath, PATH_DECLARATION) < 0
      decreases Count(commonClasspath, '$'), !doneReplace
    {
      var start := IndexOf(commonClasspath, PATH_DECLARATION);
      IndexOfIsLeftmost(commonClasspath, PATH_DECLARATION);
      if start >= 0 {
        ReplacementRemovesDollar(commonClasspath, start, tomcatPath);
        buffer := ReplaceRange(buffer, start, start + length, tomcatPath);
        commonClasspath := buffer;
      } else {
        doneReplace := true;
      }
    }
    var paths := JavaSplit(commonClasspath, ',');
    pathList := Some(paths);
  }

  /** A string without '$' holds no placeholder. */
  lemma NoDollarNoPlaceholder(t: string)
    requires '$' !in t
    ensures !Contains(t, PATH_DECLARATION)
  {
    if Contains(t, PATH_DECLARATION) {
      var i :| 0 <= i <= |t| && OccursAt(t, PATH_DECLARATION, i);
      OccurrenceStartsWithDollar(t, i);
    }
  }

  /** A placeholder at the very start is the leftmost one, and replacing it puts the value in front. */
  lemma LeadingPlaceholder(rest: string, home: string)
    ensures IndexOf(PATH_DECLARATION + rest, PATH_DECLARATION) == 0
    ensures ReplaceRange(PATH_DECLARATION + rest, 0, |PATH_DECLARATION|, home) == home + rest
  {
    var s := PATH_DECLARATION + rest;
    var len := |PATH_DECLARATION|;
    assert s[..len] == PATH_DECLARATION;
    IndexOfIs(s, PATH_DECLARATION, 0);
    assert s[len..] == rest;
  }

  /** A placeholder at the very start is the first one replaced. */
  lemma ExpandLeadingPlaceholder(rest: string, home: string)
    requires '$' !in home
    ensures ExpandCatalinaHome(PATH_DECLARATION + rest, home) == ExpandCatalinaHome(home + rest, home)
  {
    LeadingPlaceholder(rest, home);
    ExpandStep(PATH_DECLARATION + rest, home, 0);
  }

  /** Two comma-free entries, the second non-empty, come back from String.split as written. */
  lemma SplitTwoEntries(e1: string, e2: string)
    requires ',' !in e1 && ',' !in e2 && e2 != ""
    ensures JavaSplit(e1 + "," + e2, ',') == [e1, e2]
  {
    var ps := [e1, e2];
    assert ps[1..] == [e2];
    assert Join(ps, ',') == e1 + "," + e2;
    JavaSplitOfJoin(ps, ',');
  }

  /** A single leading placeholder expands to the home directory. */
  lemma ExpandSinglePlaceholder(tail: string, home: string)
    requires '$' !in home && '$' !in tail
    ensures ExpandCatalinaHome(PATH_DECLARATION + tail, home) == home + tail
  {
    ExpandLeadingPlaceholder(tail, home);
    NoDollarNoPlaceholder(home + tail);
    ExpansionRemovesPlaceholders(home + tail, home);
  }

  /** Two placeholders, the first leading and the two separated by text without '$', both expand to the home directory. */
  lemma ExpandTwoPlaceholders(mid: string, tail: string, home: string)
    requires '$' !in home && '$' !in mid && '$' !in tail
    ensures ExpandCatalinaHome(PATH_DECLARATION + (mid + (PATH_DECLARATION + tail)), home)
         == (home + mid) + (home + tail)
  {
    var second := PATH_DECLARATION + tail;
    ExpandLeadingPlaceholder(mid + second, home);
    assert home + (mid + second) == (home + mid) + second;
    ExpandAfterPlainPrefix(home + mid, second, home);
    ExpandSinglePlaceholder(tail, home);
  }

  // The usual common.loader, "${catalina.home}/lib,${catalina.home}/lib/*.jar",
  // gives two entries under whatever directory catalina.home names.
  lemma TomcatExpansionExample(env: Environment, home: string)
    requires env.catalinaHome == Some(home) && '$' !in home && ',' !in home
    requires env.commonLoader == Some(PATH_DECLARATION + "/lib," + PATH_DECLARATION + "/lib/*.jar")
    ensures TomcatHomeHasNoDollar(env)
    ensures TomcatPaths(env) == Some([home + "/lib", home + "/lib/*.jar"])
  {
    var e1 := home + "/lib";
    var e2 := home + "/lib/*.jar";
    var common := env.commonLoader.value;
    assert common == PATH_DECLARATION + ("/lib," + (PATH_DECLARATION + "/lib/*.jar"));
    assert ExpandCatalinaHome(common, home) == e1 + "," + e2 by {
      ExpandTwoPlaceholders("/lib,", "/lib/*.jar", home);
      assert (home + "/lib,") + e2 == e1 + "," + e2;
    }
    SplitTwoEntries(e1, e2);
  }

  /**
   * When catalina.home is the placeholder itself, a replacement step gives
   * back the string it started from, which still holds the placeholder: the
   * source's do/while loop never ends on that input.
   */
  lemma SelfReferentialHomeRepeatsForever(s: string)
    requires OccursAt(s, PATH_DECLARATION, IndexOf(s, PATH_DECLARATION))
    ensures var start := IndexOf(s, PATH_DECLARATION);
      ReplaceRange(s, start, start + |PATH_DECLARATION|, PATH_DECLARATION) == s
  {
    var start := IndexOf(s, PATH_DECLARATION);
    assert s == s[..start] + PATH_DECLARATION + s[start + |PATH_DECLARATION|..];
  }
}
