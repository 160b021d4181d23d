/** Receipts, bundles and the published projection of a plugin release. */
module PluginBundle {
  import opened Wrappers
  import opened Versions

  /** SHA-256 taken as collision free: a digest is named by the bytes it digests. */
  datatype Digest = Sha256(of: Blob)

  /**
    File contents. A receipt has one canonical encoding and many others that parse to it;
    `layout` tells those apart.
  */
  datatype Blob =
    | Raw(bytes: string)
    | EncodedCatalog
    | EncodedReceipt(receipt: Receipt)
    | LooseReceipt(receipt: Receipt, layout: nat)

  datatype Receipt = Receipt(
    schema: string,
    version: Version,
    sourceTag: Version,
    sourceCommit: string,
    archiveName: Version,
    archive: Digest,
    files: map<string, Digest>,
    readme: string,
    license: string,
    runUrl: string
  )

  /**
    A tree on the branch, split by kind of path: files under `dist/plugin/gh-address-cr/` by
    their relative name, the four metadata files, and the paths of any other files.
  */
  datatype Tree = Tree(
    payload: map<string, Blob>,
    catalog: Option<Blob>,
    readme: Option<Blob>,
    license: Option<Blob>,
    publication: Option<Blob>,
    others: set<string>
  )

  const SCHEMA := "plugin-publication.v1"

  predicate ValidReceipt(r: Receipt) {
    && r.schema == SCHEMA
    && r.sourceTag == r.version
    && r.archiveName == r.version
    && |r.sourceCommit| == 40
    && r.readme != "" && |r.readme| <= 65536
    && r.license != "" && |r.license| <= 65536
    && 0 < |r.files| <= 1000
  }

  /** A bundle that passed loading: the receipt is valid and inventories the payload. */
  datatype Bundle = Bundle(receipt: Receipt, payload: map<string, Blob>) {
    predicate Valid() {
      && ValidReceipt(receipt)
      && receipt.files == map name | name in payload :: Sha256(payload[name])
    }

    /** The tree published for this bundle. */
    function Snapshot(): Tree {
      Tree(payload, Some(EncodedCatalog), Some(Raw(receipt.readme)), Some(Raw(receipt.license)),
           Some(EncodedReceipt(receipt)), {})
    }
  }

  function ParseReceipt(b: Blob): Option<Receipt> {
    match b
    case EncodedReceipt(r) => Some(r)
    case LooseReceipt(r, _) => Some(r)
    case _ => None
  }

  /** What is checked of a tree read from the branch, with its receipt as the result. */
  function ValidateRemoteTree(tree: Tree): Option<Receipt> {
    if tree.publication.None? then None else
    var parsed := ParseReceipt(tree.publication.value);
    if parsed.None? then None else
    var r := parsed.value;
    if && ValidReceipt(r)
       && tree.payload.Keys == r.files.Keys && tree.others == {}
       && (forall name | name in r.files :: Sha256(tree.payload[name]) == r.files[name])
       && tree.catalog == Some(EncodedCatalog)
       && tree.readme == Some(Raw(r.readme))
       && tree.license == Some(Raw(r.license))
    then Some(r) else None
  }

  /** Reading back a published bundle accepts it and returns its own receipt. */
  lemma SnapshotReadsBack(b: Bundle)
    requires b.Valid()
    ensures ValidateRemoteTree(b.Snapshot()) == Some(b.receipt)
  {
    assert b.receipt.files.Keys == b.payload.Keys;
  }

  /**
    A tree that validates with a bundle's own receipt is that bundle's snapshot exactly when
    its receipt file is the canonical encoding: no other byte of the tree is left open.
  */
  lemma ReceiptDeterminesTree(tree: Tree, b: Bundle)
    requires b.Valid()
    requires ValidateRemoteTree(tree) == Some(b.receipt)
    ensures tree == b.Snapshot() <==> tree.publication == Some(EncodedReceipt(b.receipt))
  {
    forall name | name in tree.payload
      ensures tree.payload[name] == b.payload[name]
    {
      assert Sha256(tree.payload[name]) == b.receipt.files[name] == Sha256(b.payload[name]);
    }
    assert b.receipt.files.Keys == b.payload.Keys;
    assert tree.payload == b.payload;
  }

  /** The receipt file is not compared byte for byte: a tree with another layout also validates. */
  lemma ReceiptLayoutIsNotChecked(b: Bundle)
    requires b.Valid()
    ensures var tree := b.Snapshot().(publication := Some(LooseReceipt(b.receipt, 0)));
            ValidateRemoteTree(tree) == Some(b.receipt) && tree != b.Snapshot()
  {
    assert b.receipt.files.Keys == b.payload.Keys;
  }

  datatype Decision = Publish | Superseded | Unchanged

  /** What a publisher does about the receipt it reads; `Err` when equal versions disagree. */
  function PublicationPolicy(current: Option<Receipt>, candidate: Receipt): Result<Decision, string> {
    if !ValidReceipt(candidate) then Err("invalid candidate receipt")
    else if current.None? then Ok(Publish)
    else if !ValidReceipt(current.value) then Err("invalid current receipt")
    else if current.value.version.Less(candidate.version) then Ok(Publish)
    else if candidate.version.Less(current.value.version) then Ok(Superseded)
    else if current.value != candidate then Err("same-version publication diverges")
    else Ok(Unchanged)
  }

  /**
    A first publication goes ahead exactly for a receipt that names one version throughout, a full
    commit, both texts within their bounds, and between one and a thousand files.
  */
  lemma FirstPublicationExactly(r: Receipt)
    ensures PublicationPolicy(None, r) in {Ok(Publish), Err("invalid candidate receipt")}
    ensures PublicationPolicy(None, r) == Ok(Publish) <==>
              && r.schema == "plugin-publication.v1"
              && r.version == r.sourceTag && r.version == r.archiveName
              && |r.sourceCommit| == 40
              && (forall text | text in {r.readme, r.license} :: 1 <= |text| <= 65536)
              && 1 <= |r.files.Keys| <= 1000
  {
    assert |r.files.Keys| == |r.files|;
    assert r.readme in {r.readme, r.license} && r.license in {r.readme, r.license};
  }

  /** Between receipts that could each be published first, the version decides; equal versions must be one receipt. */
  lemma PolicyExactly(current: Receipt, candidate: Receipt)
    requires PublicationPolicy(None, current).Ok? && PublicationPolicy(None, candidate).Ok?
    ensures var decision := PublicationPolicy(Some(current), candidate);
            && (decision == Ok(Publish) <==> current.version.Less(candidate.version))
            && (decision == Ok(Superseded) <==> candidate.version.Less(current.version))
            && (decision == Ok(Unchanged) <==> current == candidate)
            && (decision.Err? <==> current.version == candidate.version && current != candidate)
  {
    VersionOrder(current.version, candidate.version, current.version);
  }
}
