# Classpath discovery, aggregate resource sources and regex criteria

A Dafny model of the core of the `com.tacitknowledge.util.discovery`
package. It covers three classes.

- **`ClasspathUtils`** finds the classpath of the running program.
  - It walks the class loader chain from the context class loader. Each
    `URLClassLoader` contributes its URL paths, up to the first loader of
    another kind or the first loader whose `getParent()` is refused, which
    still contributes its own. For the JBoss
    `UnifiedClassLoader3`, those paths come from a reflective
    `getClasspath()` call.
  - It tokenizes `java.class.path` at the `path.separator` characters.
  - It removes duplicates through a `HashSet`.
  - Two order-preserving filters keep the directories and the `.jar`/`.zip`
    archives. The directory list is followed by the Tomcat `common.loader`
    paths, in which every `${catalina.home}` has been replaced by the
    `catalina.home` value.
- **`AggregateResourceListSource`** holds an ordered list of
  `ResourceListSource`s. It asks each of them in turn and concatenates the
  answers, keeping duplicates.
- **`RegexResourceCriteria`** accepts a resource name when a regular
  expression matches the whole of its last path segment. It accepts no null
  name.

Files and modules:

- `wrappers.dfy`: `Option` and `Result`.
- `strings.dfy`, module `Strings`: `String.indexOf`, `StringBuffer.replace`,
  `String.endsWith`, and a character count.
- `split.dfy`, module `Split`: `String.split` on one ordinary character, and
  `java.util.StringTokenizer`.
- `files.dfy`, module `Files`: `java.io.File.getPath` and `getName` on a Unix
  host.
- `resources.dfy`, module `Resources`: the two interfaces, as datatypes that
  carry their behaviour as functions.
- `aggregate_resource_list_source.dfy`, module `Aggregate`: a class whose
  `sources` field is the registered list.
- `regex_resource_criteria.dfy`, module `RegexCriteria`: a pure datatype. It
  also hand-codes the pattern `^Test[0-9]+.txt` so that the unit test's
  cases can be proved.
- `classpath_utils.dfy`, module `ClasspathUtils`: methods with loops over an
  explicit `Environment` value.
  - The environment holds the loader chain and the four system properties.
  - It holds `File.isDirectory` and `File.isFile` as predicates.
  - Each loop method is proved against a function that specifies it
    (`NormalizeAll`, `Walked`/`ComponentsOf`, `Tokens`, `Filter`,
    `ExpandCatalinaHome`).

Two behaviours of the code worth noting:

- An empty resource name is not treated like null. `matches("")` tests `""`
  against the pattern, which for the test pattern gives false.
- The `${catalina.home}` loop has no guard against a `catalina.home` value
  that contains the placeholder itself. On such a value, once
  `common.loader` holds the placeholder, every round leaves one behind and
  the loop never ends. `SelfReferentialHomeRepeatsForever` shows this for
  the placeholder itself.

The specification functions, which the lemmas in the table below
characterise, stand for these parts of the source (paths relative to the
repository root):

- `Strings.IndexOf`: `String.indexOf` at
  `src/main/java/com/tacitknowledge/util/discovery/ClasspathUtils.java:100`.
- `Files.Normalize`: `File.getPath` at `ClasspathUtils.java:179` and `:222`.
- `Files.GetName`: `File.getName` at `ClasspathUtils.java:133` and
  `src/main/java/com/tacitknowledge/util/discovery/RegexResourceCriteria.java:54-55`.
- `ClasspathUtils.NormalizeAll`: the loop at `ClasspathUtils.java:219-223`.
- `ClasspathUtils.Walked` and `ClasspathUtils.ComponentsOf`: the loader walk
  at `ClasspathUtils.java:152-167`.
- `ClasspathUtils.ExpandCatalinaHome`: the do/while loop at
  `ClasspathUtils.java:98-111`.
- `ClasspathUtils.TomcatPaths`: `getTomcatPaths` at `ClasspathUtils.java:80-115`.
- `ClasspathUtils.Filter`: the filtering loops at `ClasspathUtils.java:56-64`
  and `:128-137`.
- `Aggregate.Aggregated`: the loop of `getResources` at
  `src/main/java/com/tacitknowledge/util/discovery/AggregateResourceListSource.java:79-83`.
- `RegexCriteria.TestRegexMatches`: Java's whole match of `^Test[0-9]+.txt`,
  the pattern at
  `src/test/java/com/tacitknowledge/util/discovery/RegexResourceCriteriaTest.java:41`.

## Model

Source paths are relative to the repository root.

| member | source | states |
|---|---|---|
| Strings.IndexOfFromIsLeftmost | src/main/java/com/tacitknowledge/util/discovery/ClasspathUtils.java:100 | the search from an index finds an occurrence at or after it with none in between, or -1 when none follows |
| Strings.IndexOfIsLeftmost | src/main/java/com/tacitknowledge/util/discovery/ClasspathUtils.java:100 | `indexOf` is -1 exactly when the placeholder does not occur, and otherwise its leftmost occurrence |
| Strings.IndexOfIs | src/main/java/com/tacitknowledge/util/discovery/ClasspathUtils.java:100 | any leftmost occurrence is what `indexOf` returns (the converse of IndexOfIsLeftmost) |
| Strings.ReplaceRange | src/main/java/com/tacitknowledge/util/discovery/ClasspathUtils.java:103 | `StringBuffer.replace` changes the length by the replacement's length minus the removed range's |
| Split.Pieces | src/main/java/com/tacitknowledge/util/discovery/ClasspathUtils.java:112 | the pieces between commas: at least one, none holding a comma |
| Split.JoinPieces | src/main/java/com/tacitknowledge/util/discovery/ClasspathUtils.java:112 | joining the pieces with the separator gives back the string |
| Split.PiecesOfJoin | src/main/java/com/tacitknowledge/util/discovery/ClasspathUtils.java:112 | the pieces of a join of separator-free strings are those strings |
| Split.DropTrailingEmpty | src/main/java/com/tacitknowledge/util/discovery/ClasspathUtils.java:112 | a prefix of the pieces, ending in a non-empty piece, after which only empty pieces were removed |
| Split.JavaSplit | src/main/java/com/tacitknowledge/util/discovery/ClasspathUtils.java:112 | `split(",")`: no entry holds a comma; a comma-free string comes back alone; otherwise the last entry is not empty |
| Split.JavaSplitOfJoin | src/main/java/com/tacitknowledge/util/discovery/ClasspathUtils.java:112 | splitting inverts joining comma-free entries whose last one is not empty |
| Split.JavaSplitKeepsLeadingPieces | src/main/java/com/tacitknowledge/util/discovery/ClasspathUtils.java:112 | the result is the pieces between commas with only trailing empty pieces dropped, and those pieces join back to the string |
| Split.TokensFrom | src/main/java/com/tacitknowledge/util/discovery/ClasspathUtils.java:173-181 | every token is non-empty and holds no delimiter |
| Split.Tokens | src/main/java/com/tacitknowledge/util/discovery/ClasspathUtils.java:173-181 | `StringTokenizer` tokens are non-empty and delimiter-free |
| Split.TokensOfRun | src/main/java/com/tacitknowledge/util/discovery/ClasspathUtils.java:176 | `nextToken` returns a maximal run of non-delimiters |
| Split.TokensSkipDelimiter | src/main/java/com/tacitknowledge/util/discovery/ClasspathUtils.java:174 | `hasMoreTokens` skips a leading delimiter without producing a token |
| Split.TokensSplitAtDelimiter | src/main/java/com/tacitknowledge/util/discovery/ClasspathUtils.java:173 | a delimiter separates: the tokens of `a d b` are those of `a` then those of `b` |
| Split.TokensOfJoin | src/main/java/com/tacitknowledge/util/discovery/ClasspathUtils.java:173-181 | tokenizing inverts joining non-empty, delimiter-free tokens with a delimiter |
| Files.CollapseShape | src/main/java/com/tacitknowledge/util/discovery/ClasspathUtils.java:179 | collapsing separator runs keeps the first and last character and leaves no `//` |
| Files.CollapseOfCollapsed | src/main/java/com/tacitknowledge/util/discovery/ClasspathUtils.java:179 | a path without `//` is left as it is |
| Files.CollapseAppendPlain | src/main/java/com/tacitknowledge/util/discovery/ClasspathUtils.java:179 | collapsing commutes with appending text that has no separator |
| Files.NormalizeIsNormal | src/main/java/com/tacitknowledge/util/discovery/ClasspathUtils.java:179 | `File.getPath` gives a normal path: no `//`, and no trailing `/` unless the path is `/` |
| Files.NormalizeFixedPoints | src/main/java/com/tacitknowledge/util/discovery/ClasspathUtils.java:179 | the paths `getPath` leaves unchanged are exactly the normal ones, so it is idempotent |
| Files.LastSegmentIsLongestSuffix | src/main/java/com/tacitknowledge/util/discovery/RegexResourceCriteria.java:54-55 | the last segment is the longest separator-free suffix |
| Files.LastSegmentAfterSeparator | src/main/java/com/tacitknowledge/util/discovery/RegexResourceCriteria.java:54-55 | after a separator, the last segment is all the separator-free text that follows |
| Files.GetNameHasNoSeparator | src/main/java/com/tacitknowledge/util/discovery/RegexResourceCriteria.java:54-55 | `File.getName` holds no separator |
| Files.GetNameOfPlainName | src/main/java/com/tacitknowledge/util/discovery/RegexResourceCriteria.java:54-55 | a name without a separator is its own path and its own name |
| Files.GetNameAfterDirectory | src/main/java/com/tacitknowledge/util/discovery/RegexResourceCriteria.java:54-55 | `getName` of `dir/n` is `n`, whatever `dir` is |
| Files.GetNameIdempotent | src/main/java/com/tacitknowledge/util/discovery/RegexResourceCriteria.java:54-55 | taking the name of a name changes nothing |
| RegexCriteria.RegexResourceCriteria.Matches | src/main/java/com/tacitknowledge/util/discovery/RegexResourceCriteria.java:48-57 | null is rejected; an accepted name's `getName` is matched whole by the pattern |
| RegexCriteria.RegexResourceCriteria.AsResourceCriteria | src/main/java/com/tacitknowledge/util/discovery/RegexResourceCriteria.java:27 | through the `ResourceCriteria` interface: null is refused, a path gets the answer of its file name, and a plain name is accepted exactly when the pattern matches all of it |
| RegexCriteria.InterfaceAnswers | src/main/java/com/tacitknowledge/util/discovery/RegexResourceCriteria.java:48-57 | for every path, the answer is that of its file name; for every plain name, it is the pattern's whole match |
| RegexCriteria.PlainNameMatches | src/main/java/com/tacitknowledge/util/discovery/RegexResourceCriteria.java:54-56 | a name without a separator is accepted exactly when the pattern matches all of it |
| RegexCriteria.MatchesOnlyFinalSegment | src/main/java/com/tacitknowledge/util/discovery/RegexResourceCriteria.java:54-55 | a name under any directory gets the same answer as the bare name |
| RegexCriteria.MatchesDependsOnNameOnly | src/main/java/com/tacitknowledge/util/discovery/RegexResourceCriteria.java:54-55 | a path and its own file name get the same answer |
| RegexCriteria.TestRegexAccepts | src/test/java/com/tacitknowledge/util/discovery/RegexResourceCriteriaTest.java:41-43 | `^Test[0-9]+.txt` matches `Test12.txt` (and `Test12_txt`) |
| RegexCriteria.TestRegexRejects | src/test/java/com/tacitknowledge/util/discovery/RegexResourceCriteriaTest.java:44-45 | `^Test[0-9]+.txt` rejects `Test.txt`, the empty string, `xTest12.txt` and `Test12.txt.bak` |
| RegexCriteria.TestMatchesNestedName | src/test/java/com/tacitknowledge/util/discovery/RegexResourceCriteriaTest.java:42 | `foo/bar/Test12.txt` is accepted |
| RegexCriteria.TestMatchesBareName | src/test/java/com/tacitknowledge/util/discovery/RegexResourceCriteriaTest.java:43 | `Test12.txt` is accepted |
| RegexCriteria.TestRejectsMissingDigits | src/test/java/com/tacitknowledge/util/discovery/RegexResourceCriteriaTest.java:44 | `foo/bar/Test.txt` is rejected |
| RegexCriteria.TestRejectsEmptyName | src/test/java/com/tacitknowledge/util/discovery/RegexResourceCriteriaTest.java:45 | the empty name is rejected |
| RegexCriteria.RegexResourceCriteriaTestCases | src/test/java/com/tacitknowledge/util/discovery/RegexResourceCriteriaTest.java:41-46 | all five assertions of `testMatches`, null included |
| RegexCriteria.TestRejectsLeadingText | src/main/java/com/tacitknowledge/util/discovery/RegexResourceCriteria.java:56 | `matches()` is a whole-name match: `xTest12.txt` is rejected although it contains a matching name |
| RegexCriteria.TestRejectsTrailingText | src/main/java/com/tacitknowledge/util/discovery/RegexResourceCriteria.java:56 | `Test12.txt.bak` is rejected although it starts with a matching name |
| RegexCriteria.TestDotIsAnyCharacter | src/test/java/com/tacitknowledge/util/discovery/RegexResourceCriteriaTest.java:41 | the unescaped `.` of the test pattern also accepts `Test12_txt` |
| Aggregate.AggregatedAppend | src/main/java/com/tacitknowledge/util/discovery/AggregateResourceListSource.java:79-83 | the answer for `a + b` is the answer for `a` followed by the answer for `b` |
| Aggregate.AggregatedLength | src/main/java/com/tacitknowledge/util/discovery/AggregateResourceListSource.java:76-85 | the result's length is the sum of the sources' result lengths: nothing is dropped or merged |
| Aggregate.AggregatedMembership | src/main/java/com/tacitknowledge/util/discovery/AggregateResourceListSource.java:79-83 | a name is in the result exactly when some registered source returns it |
| Aggregate.AggregatedPair | src/main/java/com/tacitknowledge/util/discovery/AggregateResourceListSource.java:79-83 | for sources A then B, the result is A's names followed by B's; a name both return appears at least twice |
| Aggregate.AggregateResourceListSource.constructor | src/main/java/com/tacitknowledge/util/discovery/AggregateResourceListSource.java:32-41 | the no-argument constructor registers no source |
| Aggregate.AggregateResourceListSource.FromList | src/main/java/com/tacitknowledge/util/discovery/AggregateResourceListSource.java:49-56 | a null list fails with the `IllegalArgumentException` message; otherwise a fresh aggregate holds exactly the list's sources in order |
| Aggregate.AggregateResourceListSource.FromArray | src/main/java/com/tacitknowledge/util/discovery/AggregateResourceListSource.java:64-71 | a null array fails with its message; otherwise a fresh aggregate holds exactly the array's sources in order |
| Aggregate.AggregateResourceListSource.GetResources | src/main/java/com/tacitknowledge/util/discovery/AggregateResourceListSource.java:76-85 | a fresh array holding every source's answer for the same basePath and criteria, in registration order with duplicates; the sources are unchanged |
| Aggregate.AggregateResourceListSource.AddResourceListSource | src/main/java/com/tacitknowledge/util/discovery/AggregateResourceListSource.java:93-96 | the source is appended after the earlier ones, and every later answer gains its names at the end |
| Aggregate.EmptyAggregateFindsNothing | src/main/java/com/tacitknowledge/util/discovery/AggregateResourceListSource.java:38-41 | an aggregate made with no sources returns an empty array |
| ClasspathUtils.NormalizeAllPointwise | src/main/java/com/tacitknowledge/util/discovery/ClasspathUtils.java:219-223 | each path is normalised in its own place, with none added or dropped |
| ClasspathUtils.NormalizeAllSnoc | src/main/java/com/tacitknowledge/util/discovery/ClasspathUtils.java:179-180 | normalising one more path appends its normal form |
| ClasspathUtils.GetUrlClassLoaderClasspathComponents | src/main/java/com/tacitknowledge/util/discovery/ClasspathUtils.java:193-226 | `getURLs()` paths normalised in order; for the JBoss loader, the `getClasspath()` paths, or nothing when reflection fails |
| ClasspathUtils.WalkedIsLongestPrefix | src/main/java/com/tacitknowledge/util/discovery/ClasspathUtils.java:152-167 | the walk visits a prefix of the chain, all URLClassLoaders, only the last of which may have refused `getParent()`; it stops early only at another kind of loader or after a refusal |
| ClasspathUtils.ComponentsOfCons | src/main/java/com/tacitknowledge/util/discovery/ClasspathUtils.java:157 | the first loader's components come before the rest |
| ClasspathUtils.ComponentsOfSnoc | src/main/java/com/tacitknowledge/util/discovery/ClasspathUtils.java:157 | one more loader appends its components after those collected so far |
| ClasspathUtils.FailedJBossLoaderIsPassedOver | src/main/java/com/tacitknowledge/util/discovery/ClasspathUtils.java:199-212 | a JBoss loader whose `getClasspath()` fails adds nothing, and the walk goes on to its parent |
| ClasspathUtils.DeniedParentEndsWalk | src/main/java/com/tacitknowledge/util/discovery/ClasspathUtils.java:159-166 | a loader whose `getParent()` throws still contributes its components, and nothing after it is read |
| ClasspathUtils.WalkedFrom | src/main/java/com/tacitknowledge/util/discovery/ClasspathUtils.java:154-166 | from a URLClassLoader the walk visits it, then its parent unless `getParent()` threw |
| ClasspathUtils.WalkStep | src/main/java/com/tacitknowledge/util/discovery/ClasspathUtils.java:154-166 | one iteration of the walk keeps "visited so far, then the walk from here, is the whole walk" |
| ClasspathUtils.WalkEnd | src/main/java/com/tacitknowledge/util/discovery/ClasspathUtils.java:154 | where the loop condition fails, the walk has nothing left to visit |
| ClasspathUtils.WalkLoaderChain | src/main/java/com/tacitknowledge/util/discovery/ClasspathUtils.java:152-167 | the loop collects the components of exactly the walked loaders, in walk order |
| ClasspathUtils.TokenStep | src/main/java/com/tacitknowledge/util/discovery/ClasspathUtils.java:176 | the run of non-separators at the cursor is the next token |
| ClasspathUtils.TokenizeClasspath | src/main/java/com/tacitknowledge/util/discovery/ClasspathUtils.java:171-181 | the `StringTokenizer` loop collects the normal forms of exactly the tokens of `java.class.path`, in order |
| ClasspathUtils.ListOfSet | src/main/java/com/tacitknowledge/util/discovery/ClasspathUtils.java:184 | the list holds each element of the set exactly once |
| ClasspathUtils.GetClasspathComponents | src/main/java/com/tacitknowledge/util/discovery/ClasspathUtils.java:147-185 | no duplicates, and exactly the walk's components and the classpath tokens, in an order left open |
| ClasspathUtils.FilterKeepsAccepted | src/main/java/com/tacitknowledge/util/discovery/ClasspathUtils.java:56-64 | a filter keeps exactly the accepted elements and adds no duplicates |
| ClasspathUtils.FilterOfArrangement | src/main/java/com/tacitknowledge/util/discovery/ClasspathUtils.java:124-139 | filtering a duplicate-free arrangement keeps, once each, exactly the accepted components |
| ClasspathUtils.GetClasspathArchives | src/main/java/com/tacitknowledge/util/discovery/ClasspathUtils.java:124-139 | the components that are existing `.jar`/`.zip` files, in component order, each once, and no others |
| ClasspathUtils.GetClasspathDirectories | src/main/java/com/tacitknowledge/util/discovery/ClasspathUtils.java:52-71 | the existing-directory components in component order, each once, followed unchecked by the Tomcat paths (nothing when those are null) |
| ClasspathUtils.UnsetPropertyAddsNothing | src/main/java/com/tacitknowledge/util/discovery/ClasspathUtils.java:82-93 | with `catalina.home` or `common.loader` unset, getTomcatPaths yields null and getClasspathDirectories adds no Tomcat path |
| ClasspathUtils.PlaceholderHasDollar | src/main/java/com/tacitknowledge/util/discovery/ClasspathUtils.java:95 | `${catalina.home}` holds a `$` |
| ClasspathUtils.OccurrenceStartsWithDollar | src/main/java/com/tacitknowledge/util/discovery/ClasspathUtils.java:100-103 | every occurrence of the placeholder starts with `$` |
| ClasspathUtils.ReplacementRemovesDollar | src/main/java/com/tacitknowledge/util/discovery/ClasspathUtils.java:103 | replacing one placeholder by a `$`-free home leaves fewer `$`, which is why the loop ends |
| ClasspathUtils.ExpansionRemovesPlaceholders | src/main/java/com/tacitknowledge/util/discovery/ClasspathUtils.java:98-111 | after the loop no placeholder remains, and a string without one is unchanged |
| ClasspathUtils.ExpandStep | src/main/java/com/tacitknowledge/util/discovery/ClasspathUtils.java:100-105 | one round replaces the leftmost placeholder, lowers the `$` count and leaves the final result the same |
| ClasspathUtils.IndexAfterPlainPrefix | src/main/java/com/tacitknowledge/util/discovery/ClasspathUtils.java:100 | behind a `$`-free prefix, the leftmost placeholder is the one in the rest, shifted |
| ClasspathUtils.ReplaceBehindPrefix | src/main/java/com/tacitknowledge/util/discovery/ClasspathUtils.java:103 | replacing behind a prefix is replacing in the rest |
| ClasspathUtils.PlainPrefixNoPlaceholder | src/main/java/com/tacitknowledge/util/discovery/ClasspathUtils.java:98-111 | with no placeholder behind a `$`-free prefix, the expansion changes nothing |
| ClasspathUtils.PlainPrefixStep | src/main/java/com/tacitknowledge/util/discovery/ClasspathUtils.java:100-105 | behind a `$`-free prefix, a round replaces the placeholder in the rest |
| ClasspathUtils.ExpandAfterPlainPrefix | src/main/java/com/tacitknowledge/util/discovery/ClasspathUtils.java:98-111 | a `$`-free prefix passes through the expansion untouched |
| ClasspathUtils.GetTomcatPaths | src/main/java/com/tacitknowledge/util/discovery/ClasspathUtils.java:80-115 | null exactly when `catalina.home` or `common.loader` is unset; otherwise `common.loader` with every placeholder expanded, split at commas |
| ClasspathUtils.NoDollarNoPlaceholder | src/main/java/com/tacitknowledge/util/discovery/ClasspathUtils.java:100 | a string without `$` holds no placeholder |
| ClasspathUtils.LeadingPlaceholder | src/main/java/com/tacitknowledge/util/discovery/ClasspathUtils.java:100-103 | a leading placeholder is found at 0, and replacing it puts the home in front |
| ClasspathUtils.ExpandLeadingPlaceholder | src/main/java/com/tacitknowledge/util/discovery/ClasspathUtils.java:98-111 | a leading placeholder is the first one replaced |
| ClasspathUtils.ExpandSinglePlaceholder | src/main/java/com/tacitknowledge/util/discovery/ClasspathUtils.java:98-111 | a single leading placeholder expands to the home |
| ClasspathUtils.ExpandTwoPlaceholders | src/main/java/com/tacitknowledge/util/discovery/ClasspathUtils.java:98-111 | two placeholders separated by `$`-free text both expand to the home |
| ClasspathUtils.SplitTwoEntries | src/main/java/com/tacitknowledge/util/discovery/ClasspathUtils.java:112 | two comma-free entries, the second non-empty, come back from `split(",")` as written |
| ClasspathUtils.TomcatExpansionExample | src/main/java/com/tacitknowledge/util/discovery/ClasspathUtils.java:94-114 | `${catalina.home}/lib,${catalina.home}/lib/*.jar` gives `[home/lib, home/lib/*.jar]` |
| ClasspathUtils.SelfReferentialHomeRepeatsForever | src/main/java/com/tacitknowledge/util/discovery/ClasspathUtils.java:98-111 | with the placeholder itself as `catalina.home`, a round gives back the string it started from, so the loop never ends |

## Left out

- Reflection (`getMethod`/`invoke`) is reduced to its outcome: a JBoss loader carries either the paths `getClasspath()` returns or a failure. The debug log line written on failure is not modelled.
- The thread's context class loader and `System.getProperty` are not read. The model receives them in an explicit `Environment`: the loader chain ending where `getParent()` returns null, and the four properties.
- `File.isDirectory` and `File.isFile` are predicates in the `Environment`, a snapshot of the filesystem.
- `File.getPath` and `File.getName` are modelled for a Unix host only (`/` as the separator). Windows separators and drive letters are not modelled.
- URLs are reduced to the result of `URL.getPath()`. Percent-decoding and URL syntax are not modelled.
- ClasspathUtils.ListOfSet: `HashSet` iteration order is left open. The contract states only the elements and the absence of duplicates, not the order `LinkedList(HashSet)` produces.
- ClasspathUtils.GetClasspathComponents: split into WalkLoaderChain, TokenizeClasspath and ListOfSet, one per part of the source method. It returns a `seq` rather than a fresh `LinkedList`, so the caller's freedom to mutate it is not modelled.
- ClasspathUtils.GetTomcatPaths: requires a `catalina.home` without `$` when `common.loader` is set too, which is enough for the loop to end. The source also ends for many values that contain `$`, and those are not modelled. For some values it loops forever, as SelfReferentialHomeRepeatsForever shows.
- ClasspathUtils.GetClasspathDirectories: inherits the requirement of a `catalina.home` without `$`, but only when both `catalina.home` and `common.loader` are set. With either unset, any value is accepted and no Tomcat path is added (UnsetPropertyAddsNothing).
- ClasspathUtils.ReplacementRemovesDollar: states that the `$` count falls, not that it falls by exactly one.
- Null is not modelled where the source would throw `NullPointerException`: an unset `java.class.path` or `path.separator`, `getClasspath()` returning null, null elements in a list or array given to `AggregateResourceListSource`, and a null regex.
- The regex engine is abstract: a `Pattern` carries its text and a whole-match predicate. `Pattern.compile` and its `PatternSyntaxException` are not modelled; only the test pattern `^Test[0-9]+.txt` is written out. Its `[0-9]` is ASCII digits and its `.` is any character but a line terminator.
- `ResourceListSource` and `ResourceCriteria` implementations other than the two classes here are not part of this model. A source is any function from base path and criteria to names.
- AggregateResourceListSource's list and array constructors are static methods returning a `Result`, with the exception's message as the failure.
- Concurrency is not modelled: a thread changing the sources during `getResources` is outside the model.
