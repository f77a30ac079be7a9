/**
 * The persistent entities (products, import jobs, webhook subscriptions) and the in-memory
 * tables that stand for the database. A table whose rows the code changes in place is a class;
 * a row is a value, except an import job, whose fields the worker updates one by one.
 */
module Models {
  import opened Base
  import opened Text

  type ProductId = nat
  type JobId = nat
  type WebhookId = nat

  /** A point in time; only the order of two timestamps matters. */
  type Timestamp = nat

  /** `ImportStatus`, in the order a successful import passes through its values. */
  datatype ImportStatus = Pending | Parsing | Validating | Importing | Completed | Failed {
    predicate IsTerminal() {
      this == Completed || this == Failed
    }

    function Rank(): nat {
      match this
      case Pending => 0
      case Parsing => 1
      case Validating => 2
      case Importing => 3
      case Completed => 4
      case Failed => 4
    }
  }

  /** A status change allowed by the job life cycle: one step forward, or to failed from a non-terminal status. */
  predicate Forward(from: ImportStatus, to: ImportStatus) {
    !from.IsTerminal() && (to == Failed || (to != Failed && to.Rank() == from.Rank() + 1))
  }

  /** A history of committed statuses that starts at pending and only moves forward. */
  predicate ValidHistory(log: seq<ImportStatus>) {
    |log| > 0 && log[0] == Pending && forall i :: 0 < i < |log| ==> Forward(log[i - 1], log[i])
  }

  /** A row of the `products` table (identity aside). */
  datatype Product = Product(sku: string, name: string, description: Option<string>, price: real, isActive: bool)

  /** A row of the `webhooks` table: a subscription. An empty `eventTypes` subscribes to every event. */
  datatype Webhook = Webhook(id: WebhookId, url: string, eventTypes: seq<string>, isEnabled: bool)

  /** At most one product per lower-cased SKU. */
  ghost predicate SkuUnique(m: map<ProductId, Product>) {
    forall i, j :: i in m && j in m && Lower(m[i].sku) == Lower(m[j].sku) ==> i == j
  }

  /** Some product's SKU equals `sku` once both are lower-cased. */
  ghost predicate HasSku(m: map<ProductId, Product>, sku: string) {
    exists id :: id in m && Lower(m[id].sku) == Lower(sku)
  }

  /** The lower-cased SKUs present in the catalogue. */
  ghost function SkuKeys(m: map<ProductId, Product>): set<string> {
    set id | id in m :: Lower(m[id].sku)
  }

  /** The `products` table. Ids are handed out by a counter, standing in for `uuid4`. */
  class Catalogue {
    var products: map<ProductId, Product>
    var nextId: ProductId

    ghost predicate Valid()
      reads this
    {
      (forall id :: id in products ==> id < nextId) && SkuUnique(products)
    }

    constructor ()
      ensures Valid() && products == map[]
    {
      products := map[];
      nextId := 0;
    }

    /** `query(Product).filter(func.lower(Product.sku) == func.lower(sku)).first()` */
    method FindBySku(sku: string) returns (found: Option<ProductId>)
      ensures found.Some? ==> found.value in products && Lower(products[found.value].sku) == Lower(sku)
      ensures found.None? <==> !HasSku(products, sku)
    {
      var key := Lower(sku);
      var rest := products.Keys;
      while rest != {}
        invariant rest <= products.Keys
        invariant forall id :: id in products && id !in rest ==> Lower(products[id].sku) != key
        decreases rest
      {
        var id :| id in rest;
        if Lower(products[id].sku) == key {
          return Some(id);
        }
        rest := rest - {id};
      }
      return None;
    }

    /** `db.add(Product(...))`: a new row under a fresh id. */
    method Insert(p: Product) returns (id: ProductId)
      requires Valid() && !HasSku(products, p.sku)
      modifies this
      ensures Valid()
      ensures id == old(nextId) && id !in old(products)
      ensures products == old(products)[id := p] && nextId == old(nextId) + 1
    {
      id := nextId;
      products := products[id := p];
      nextId := nextId + 1;
    }

    /** Writes new field values to an existing row whose SKU stays the same. */
    method Replace(id: ProductId, p: Product)
      requires Valid() && id in products && p.sku == products[id].sku
      modifies this
      ensures Valid()
      ensures products == old(products)[id := p] && nextId == old(nextId)
    {
      products := products[id := p];
    }

    /** `db.delete(product)` */
    method Remove(id: ProductId)
      requires Valid() && id in products
      modifies this
      ensures Valid()
      ensures products == old(products) - {id} && nextId == old(nextId)
    {
      products := products - {id};
    }

    /** `query(Product).count()` followed by `query(Product).delete()`. */
    method Clear() returns (count: nat)
      requires Valid()
      modifies this
      ensures Valid()
      ensures count == |old(products)| && products == map[] && nextId == old(nextId)
    {
      count := |products|;
      products := map[];
    }
  }

  /**
   * The `webhooks` table as a sequence of rows. `query(Webhook)...all()` has no `ORDER BY`, so the
   * database may return the rows in any order; the model fixes that order to this sequence's
   * order, and `Fanout` and `TriggerWebhook` start their tasks in it.
   */
  class WebhookStore {
    var rows: seq<Webhook>
    var nextId: WebhookId

    ghost predicate Valid()
      reads this
    {
      && (forall i, j :: 0 <= i < j < |rows| ==> rows[i].id < rows[j].id)
      && (forall i :: 0 <= i < |rows| ==> rows[i].id < nextId)
    }

    constructor ()
      ensures Valid() && rows == []
    {
      rows := [];
      nextId := 0;
    }

    /** `query(Webhook).filter(Webhook.id == id).first()`, as a position in the table. */
    method IndexOf(id: WebhookId) returns (found: Option<nat>)
      ensures found.Some? ==> found.value < |rows| && rows[found.value].id == id
      ensures found.None? <==> forall i :: 0 <= i < |rows| ==> rows[i].id != id
    {
      var i := 0;
      while i < |rows|
        invariant i <= |rows|
        invariant forall j :: 0 <= j < i ==> rows[j].id != id
      {
        if rows[i].id == id {
          return Some(i);
        }
        i := i + 1;
      }
      return None;
    }

    /** `db.add(Webhook(**webhook.dict()))`: a new row at the end of the table under a fresh id. */
    method Add(url: string, eventTypes: seq<string>, isEnabled: bool) returns (w: Webhook)
      requires Valid()
      modifies this
      ensures Valid()
      ensures w == Webhook(old(nextId), url, eventTypes, isEnabled)
      ensures rows == old(rows) + [w] && nextId == old(nextId) + 1
    {
      w := Webhook(nextId, url, eventTypes, isEnabled);
      rows := rows + [w];
      nextId := nextId + 1;
    }

    /** Writes new field values to the row at position `i`, whose id stays the same. */
    method Put(i: nat, w: Webhook)
      requires Valid() && i < |rows| && w.id == rows[i].id
      modifies this
      ensures Valid()
      ensures rows == old(rows)[i := w] && nextId == old(nextId)
    {
      rows := rows[i := w];
    }

    /** `db.delete(webhook)` for the row at position `i`. */
    method RemoveAt(i: nat)
      requires Valid() && i < |rows|
      modifies this
      ensures Valid()
      ensures rows == old(rows)[..i] + old(rows)[i + 1..] && nextId == old(nextId)
    {
      rows := rows[..i] + rows[i + 1..];
    }
  }

  /** A row of the `import_jobs` table; the worker and the upload handler change it field by field. */
  class ImportJob {
    const id: JobId
    const createdAt: Timestamp
    const fileName: Option<string>
    var totalRecords: nat
    var processedRecords: nat
    var status: ImportStatus
    var errorMessage: Option<string>
    var startedAt: Option<Timestamp>
    var completedAt: Option<Timestamp>
    /** Every status value committed for this job so far, oldest first: what a poller can observe. */
    ghost var statusLog: seq<ImportStatus>
    /** Every `processed_records` value committed for this job so far, oldest first. */
    ghost var progressLog: seq<nat>
    /** The status history committed when `ImportCompleted` was fired for this job, if it was. */
    ghost var completionAnnounced: Option<seq<ImportStatus>>

    /** `ImportJob(file_name=..., status=ImportStatus.PENDING)` with the column defaults. */
    constructor (id: JobId, fileName: string, createdAt: Timestamp)
      ensures this.id == id && this.createdAt == createdAt && this.fileName == Some(fileName)
      ensures totalRecords == 0 && processedRecords == 0 && status == Pending
      ensures errorMessage == None && startedAt == None && completedAt == None
      ensures statusLog == [Pending] && progressLog == [] && completionAnnounced == None
    {
      this.id := id;
      this.createdAt := createdAt;
      this.fileName := Some(fileName);
      totalRecords := 0;
      processedRecords := 0;
      status := Pending;
      errorMessage := None;
      startedAt := None;
      completedAt := None;
      statusLog := [Pending];
      progressLog := [];
      completionAnnounced := None;
    }
  }

  /** The `import_jobs` table in insertion order; `created_at` comes from a counter clock. */
  class JobTable {
    var jobs: seq<ImportJob>
    var clock: Timestamp
    var nextId: JobId

    ghost predicate Valid()
      reads this
    {
      && (forall i, j :: 0 <= i < j < |jobs| ==> jobs[i].createdAt < jobs[j].createdAt)
      && (forall i, j :: 0 <= i < j < |jobs| ==> jobs[i].id < jobs[j].id)
      && (forall i :: 0 <= i < |jobs| ==> jobs[i].createdAt < clock && jobs[i].id < nextId)
    }

    constructor ()
      ensures Valid() && jobs == []
    {
      jobs := [];
      clock := 0;
      nextId := 0;
    }

    /** `query(ImportJob).filter(ImportJob.id == id).first()` */
    method Find(id: JobId) returns (job: ImportJob?)
      ensures job != null ==> job in jobs && job.id == id
      ensures job == null <==> forall i :: 0 <= i < |jobs| ==> jobs[i].id != id
    {
      var i := 0;
      while i < |jobs|
        invariant i <= |jobs|
        invariant forall j :: 0 <= j < i ==> jobs[j].id != id
      {
        if jobs[i].id == id {
          return jobs[i];
        }
        i := i + 1;
      }
      return null;
    }

    /** `db.add(ImportJob(file_name=..., status=PENDING)); db.commit()` */
    method Add(fileName: string) returns (job: ImportJob)
      requires Valid()
      modifies this
      ensures Valid() && fresh(job) && jobs == old(jobs) + [job]
      ensures job.id == old(nextId) && job.createdAt == old(clock) && job.fileName == Some(fileName)
      ensures job.totalRecords == 0 && job.processedRecords == 0 && job.status == Pending
      ensures job.errorMessage == None && job.startedAt == None && job.completedAt == None
      ensures job.statusLog == [Pending] && job.progressLog == [] && job.completionAnnounced == None
    {
      job := new ImportJob(nextId, fileName, clock);
      jobs := jobs + [job];
      clock := clock + 1;
      nextId := nextId + 1;
    }
  }
}
