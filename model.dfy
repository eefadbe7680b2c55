/**
 * The records the summarizer passes between its stages: one API entry per
 * function, class or type found, the analysis of one file, the aggregated
 * analysis of one directory, and the structured content of an agents.md file.
 *
 * Python dicts keep insertion order; a dict is modelled as the sequence of its
 * items with distinct keys.
 */
module Model {
  import opened Order

  /** A value that may be absent (Python's `None`). */
  datatype Option<T> = None | Some(value: T)

  datatype ApiInfo = ApiInfo(
    name: string,
    semanticDescription: string,
    sourceFile: string,
    startLine: int,
    endLine: int)

  datatype AnalysisFragment = AnalysisFragment(
    fileExtension: string,
    apis: seq<ApiInfo>,
    skillsets: seq<string>,
    sourceFile: string)

  datatype DirectoryAnalysis = DirectoryAnalysis(
    directoryPath: string,
    fileTypes: seq<(string, int)>,
    requiredSkillsets: seq<string>,
    apis: seq<ApiInfo>)

  datatype TocEntry = TocEntry(sectionName: string, startLine: int, endLine: int)

  datatype AgentsMdContent = AgentsMdContent(
    tocLines: int,
    tableOfContents: seq<TocEntry>,
    metadata: seq<(string, string)>,
    fileTypesSummary: string,
    requiredSkillsetsSummary: string,
    apisSummary: string)

  /** The keys of a dict's items are pairwise distinct. */
  predicate DistinctKeys<V>(items: seq<(string, V)>) {
    forall i, j :: 0 <= i < j < |items| ==> items[i].0 != items[j].0
  }

  /** The sort key `(api.source_file, api.start_line)`, compared as a Python tuple. */
  predicate ApiLe(a: ApiInfo, b: ApiInfo) {
    StrLt(a.sourceFile, b.sourceFile) || (a.sourceFile == b.sourceFile && a.startLine <= b.startLine)
  }

  /** The sort key `api.start_line`. */
  predicate StartLineLe(a: ApiInfo, b: ApiInfo) {
    a.startLine <= b.startLine
  }

  /** Python's tuple order on `(str, int)` items. */
  predicate ItemLe(a: (string, int), b: (string, int)) {
    StrLt(a.0, b.0) || (a.0 == b.0 && a.1 <= b.1)
  }

  lemma ApiLeIsTotalPreorder()
    ensures TotalPreorder(ApiLe)
  {
    forall a: ApiInfo, b: ApiInfo ensures ApiLe(a, b) || ApiLe(b, a) {
      StrLeTotal(a.sourceFile, b.sourceFile);
    }
    forall a: ApiInfo, b: ApiInfo, c: ApiInfo | ApiLe(a, b) && ApiLe(b, c) ensures ApiLe(a, c) {
      if a.sourceFile != b.sourceFile && b.sourceFile != c.sourceFile {
        StrLeTrans(a.sourceFile, b.sourceFile, c.sourceFile);
        if a.sourceFile == c.sourceFile { StrLeAntisym(a.sourceFile, b.sourceFile); }
      }
    }
  }

  lemma StartLineLeIsTotalPreorder()
    ensures TotalPreorder(StartLineLe)
  {
  }

  lemma ItemLeIsTotalPreorder()
    ensures TotalPreorder(ItemLe)
  {
    forall a: (string, int), b: (string, int) ensures ItemLe(a, b) || ItemLe(b, a) {
      StrLeTotal(a.0, b.0);
    }
    forall a: (string, int), b: (string, int), c: (string, int) | ItemLe(a, b) && ItemLe(b, c)
      ensures ItemLe(a, c)
    {
      if a.0 != b.0 && b.0 != c.0 {
        StrLeTrans(a.0, b.0, c.0);
        if a.0 == c.0 { StrLeAntisym(a.0, b.0); }
      }
    }
  }
}
