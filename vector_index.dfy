/**
  * The vector store service: one collection, "drive_docs", whose documents
  * are keyed by the resource URL. Embedding and similarity ranking are not
  * modelled; a query's answer is an input (which documents came back, or
  * that the query raised). A `fails` flag on the writers stands for any
  * exception the client library raises.
  */
module VectorIndex {
  import opened Text

  /** One stored document: its text and the {name, url} metadata. */
  datatype Entry = Entry(text: string, name: string, url: string)

  /** What `collection.query` gave back for the question: the first query's documents, or an exception. */
  datatype QueryOutcome = Hits(documents: seq<string>) | QueryRaised

  /** `get_collection_stats`: the count and the collection name, or the exception text. */
  datatype Stats = Stats(totalDocuments: nat, collectionName: string) | StatsError(error: string)

  const CollectionName := "drive_docs"
  const NoRelevantDocuments := "No relevant documents found."
  const RetrievalError := "Error retrieving relevant context."

  /** The collection after `upsert(ids=[url], documents=[text], metadatas=[{name, url}])`. */
  function UpsertEntry(entries: map<string, Entry>, name: string, url: string, text: string): map<string, Entry> {
    entries[url := Entry(text, name, url)]
  }

  /** The collection after `delete(ids=[url])`. */
  function DeleteEntry(entries: map<string, Entry>, url: string): map<string, Entry> {
    entries - {url}
  }

  /** Upserting a URL adds one entry when the URL is new and none otherwise; every other entry is untouched. */
  lemma UpsertEffect(entries: map<string, Entry>, name: string, url: string, text: string)
    ensures var e := UpsertEntry(entries, name, url, text);
      && url in e && e[url] == Entry(text, name, url)
      && |e| == (if url in entries then |entries| else |entries| + 1)
      && (forall u :: u != url ==> (u in e <==> u in entries))
      && (forall u :: u != url && u in entries ==> e[u] == entries[u])
  {
    var e := UpsertEntry(entries, name, url, text);
    if url in entries {
      assert e.Keys == entries.Keys;
    } else {
      assert e.Keys == entries.Keys + {url};
    }
  }

  /** Two upserts of one URL leave a single entry, holding the second call's text and name. */
  lemma UpsertTwice(entries: map<string, Entry>, url: string, name1: string, text1: string, name2: string, text2: string)
    ensures UpsertEntry(UpsertEntry(entries, name1, url, text1), name2, url, text2) == UpsertEntry(entries, name2, url, text2)
    ensures |UpsertEntry(UpsertEntry(entries, name1, url, text1), name2, url, text2)| == |UpsertEntry(entries, name1, url, text1)|
  {
    UpsertEffect(entries, name1, url, text1);
    UpsertEffect(UpsertEntry(entries, name1, url, text1), name2, url, text2);
  }

  /** Deleting removes that URL's entry and only that one. */
  lemma DeleteEffect(entries: map<string, Entry>, url: string)
    ensures var e := DeleteEntry(entries, url);
      && url !in e
      && |e| == (if url in entries then |entries| - 1 else |entries|)
      && (forall u :: u != url ==> (u in e <==> u in entries))
      && (forall u :: u != url && u in entries ==> e[u] == entries[u])
  {
    var e := DeleteEntry(entries, url);
    if url in entries {
      assert entries.Keys == e.Keys + {url};
    } else {
      assert e.Keys == entries.Keys;
    }
  }

  /** Deleting right after an upsert of a new URL restores the collection. */
  lemma DeleteUndoesNewUpsert(entries: map<string, Entry>, name: string, url: string, text: string)
    requires url !in entries
    ensures DeleteEntry(UpsertEntry(entries, name, url, text), url) == entries
  {
  }

  /** `get_relevant_context`: the documents joined by a blank line, or one of the two fixed strings. */
  function RelevantContext(outcome: QueryOutcome): (r: string)
    ensures outcome.QueryRaised? ==> r == RetrievalError
    ensures outcome.Hits? && outcome.documents == [] ==> r == NoRelevantDocuments
    ensures outcome.Hits? && |outcome.documents| == 1 ==> r == outcome.documents[0]
  {
    match outcome
    case QueryRaised => RetrievalError
    case Hits(docs) => if docs != [] then Join(docs, "\n\n") else NoRelevantDocuments
  }

  /** The joined hits carry every document's characters plus one blank line between neighbours. */
  lemma RelevantContextLength(docs: seq<string>)
    requires docs != []
    ensures |RelevantContext(Hits(docs))| == TotalLength(docs) + 2 * (|docs| - 1)
  {
    JoinLength(docs, "\n\n");
  }

  /** Each hit is placed after the earlier hits and a blank line after each of them, and a blank line follows every hit but the last. */
  lemma RelevantContextOffsets(docs: seq<string>, i: nat)
    requires i < |docs|
    ensures OccursAt(RelevantContext(Hits(docs)), docs[i], JoinOffset(docs, "\n\n", i))
    ensures i + 1 < |docs| ==> OccursAt(RelevantContext(Hits(docs)), "\n\n", JoinOffset(docs, "\n\n", i) + |docs[i]|)
  {
    JoinPartAt(docs, "\n\n", i);
  }

  class VectorStore {
    var entries: map<string, Entry>

    /** Every entry is stored under the URL its metadata names. */
    ghost predicate Valid()
      reads this
    {
      forall u :: u in entries ==> entries[u].url == u
    }

    constructor ()
      ensures Valid() && entries == map[]
    {
      entries := map[];
    }

    /** `upsert_document`: True after storing, False (collection unchanged) when the client raises. */
    method UpsertDocument(name: string, url: string, text: string, fails: bool) returns (ok: bool)
      requires Valid()
      modifies this
      ensures Valid()
      ensures ok == !fails
      ensures fails ==> entries == old(entries)
      ensures !fails ==> entries == UpsertEntry(old(entries), name, url, text)
    {
      if fails {
        return false;
      }
      entries := UpsertEntry(entries, name, url, text);
      ok := true;
    }

    /** `delete_document`: True after removing the URL's entry, False (collection unchanged) when the client raises. */
    method DeleteDocument(url: string, fails: bool) returns (ok: bool)
      requires Valid()
      modifies this
      ensures Valid()
      ensures ok == !fails
      ensures fails ==> entries == old(entries)
      ensures !fails ==> entries == DeleteEntry(old(entries), url)
    {
      if fails {
        return false;
      }
      entries := DeleteEntry(entries, url);
      ok := true;
    }

    /** `get_collection_stats`; `raised` is the exception text when `count()` fails. */
    function CollectionStats(raised: Option<string>): (r: Stats)
      reads this
      ensures raised.None? ==> r == Stats(|entries|, CollectionName)
      ensures raised.Some? ==> r == StatsError(raised.value)
    {
      if raised.Some? then StatsError(raised.value) else Stats(|entries|, CollectionName)
    }
  }
}
