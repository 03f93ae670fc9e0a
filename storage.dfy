/** The object graph of the storage clients (`storage.ts`, `container.ts`,
    `table.ts`, `queue.ts`): an `AzureStorage` account that parses its connection
    string in place and keeps one `Container` and one `Table` per name, and the
    clients whose `fetch` assembles the headers step by step, copies the caller's
    headers over them and asks the account to sign. `fetch` returns the request
    it would hand to the network instead of sending it. */
module Storage {
  import opened Wrappers
  import opened Text
  import opened Records
  import opened Platform
  import opened ConnectionString
  import SharedKey
  import BlobRequests
  import TableRequests
  import QueueRequests

  type Headers = Record<string>

  /** A storage account: its connection string, the three fields `initialize`
      fills in, and the memoised container and table clients. */
  class AzureStorage {
    const connectionString: string
    const rt: Runtime
    var accountName: Option<string>
    var key: Option<CryptoKey>
    var endpointSuffix: Option<string>
    var containers: map<string, Container>
    var tables: map<string, Table>

    /** The fields `initialize` fills in. */
    function Creds(): Credentials
      reads this
    {
      Credentials(accountName, key, endpointSuffix)
    }

    /** Every memoised client belongs to this account under the name it is kept at. */
    predicate Valid()
      reads this
    {
      (forall n :: n in containers ==> containers[n].storage == this && containers[n].name == n) &&
      (forall n :: n in tables ==> tables[n].storage == this && tables[n].name == n)
    }

    constructor(connectionString: string, rt: Runtime)
      ensures this.connectionString == connectionString && this.rt == rt
      ensures Creds() == Credentials(None, None, None)
      ensures containers == map[] && tables == map[]
      ensures Valid()
    {
      this.connectionString := connectionString;
      this.rt := rt;
      accountName := None;
      key := None;
      endpointSuffix := None;
      containers := map[];
      tables := map[];
    }

    /** `initialize()`: unless a key is already set, walk the `;`-separated pairs
        and record the three known ones; `false` when importing a key throws,
        with the fields set so far kept. */
    method Initialize() returns (ok: bool)
      modifies this
      ensures (Creds(), ok) == ConnectionString.Initialize(rt, old(Creds()), connectionString)
      ensures containers == old(containers) && tables == old(tables)
    {
      ok := true;
      if key.None? {
        var pairs := Split(connectionString, ';');
        var i := 0;
        while i < |pairs|
          invariant 0 <= i <= |pairs|
          invariant Parse(rt, old(Creds()), pairs) == Parse(rt, Creds(), pairs[i..])
          invariant containers == old(containers) && tables == old(tables)
        {
          assert pairs[i..][0] == pairs[i] && pairs[i..][1..] == pairs[i + 1..];
          var (name, value) := Pair(pairs[i]);
          if name == "AccountName" {
            accountName := Some(value);
          }
          if name == "AccountKey" {
            var imported := ImportAccountKey(rt, value);
            if imported.None? {
              ok := false;
              return;
            }
            key := imported;
          }
          if name == "EndpointSuffix" {
            endpointSuffix := Some(value);
          }
          i := i + 1;
        }
      }
    }

    /** `container(name)`: the client kept for `name`, made and kept on first use. */
    method ContainerFor(name: string) returns (c: Container)
      requires Valid()
      modifies this
      ensures Valid()
      ensures c.storage == this && c.name == name
      ensures old(name in containers) ==> containers == old(containers) && c == old(containers[name])
      ensures !old(name in containers) ==> fresh(c) && containers == old(containers)[name := c]
      ensures tables == old(tables) && Creds() == old(Creds())
    {
      if name !in containers {
        var made := new Container(this, name);
        containers := containers[name := made];
      }
      c := containers[name];
    }

    /** `table(name)`: the client kept for `name`, made and kept on first use. */
    method TableFor(name: string) returns (t: Table)
      requires Valid()
      modifies this
      ensures Valid()
      ensures t.storage == this && t.name == name
      ensures old(name in tables) ==> tables == old(tables) && t == old(tables[name])
      ensures !old(name in tables) ==> fresh(t) && tables == old(tables)[name := t]
      ensures containers == old(containers) && Creds() == old(Creds())
    {
      if name !in tables {
        var made := new Table(this, name);
        tables := tables[name := made];
      }
      t := tables[name];
    }

    /** What `createAuthorization` yields for credentials `c0` before it
        initializes: the Shared Key value over the initialized credentials, or
        the failure of `initialize` or of signing. */
    function AuthorizationAfter(c0: Credentials, verb: string, url: string, headers: Headers, isTable: bool): Result<string, Failure> {
      var (c, ok) := ConnectionString.Initialize(rt, c0, connectionString);
      if ok then SharedKey.Authorization(rt, c, verb, url, headers, isTable) else Failure(InvalidAccountKey)
    }

    /** `createAuthorization(method, url, headers, isTable)`. */
    method CreateAuthorization(verb: string, url: string, headers: Headers, isTable: bool) returns (r: Result<string, Failure>)
      modifies this
      ensures Creds() == ConnectionString.Initialize(rt, old(Creds()), connectionString).0
      ensures r == AuthorizationAfter(old(Creds()), verb, url, headers, isTable)
      ensures containers == old(containers) && tables == old(tables)
    {
      var ok := Initialize();
      if !ok {
        return Failure(InvalidAccountKey);
      }
      r := SharedKey.Authorization(rt, Creds(), verb, url, headers, isTable);
    }
  }

  /** A blob container of an account. */
  class Container {
    const storage: AzureStorage
    const name: string

    constructor(storage: AzureStorage, name: string)
      ensures this.storage == storage && this.name == name
    {
      this.storage := storage;
      this.name := name;
    }

    /** `dir(path)`. */
    function Dir(path: string): (d: ContainerDirectory)
      ensures d.container == this && d.path == path
    {
      ContainerDirectory(this, path)
    }

    /** `file(path)`. */
    function File(path: string): (f: ContainerFile)
      ensures f.container == this && f.path == path
    {
      ContainerFile(this, path)
    }

    /** What `fetch` yields when the account's fields were `c0`: the request of
        the blob rules over the initialized credentials, or a failure. */
    function Expected(c0: Credentials, verb: string, url: string, data: Option<nat>, caller: Headers, date: string): Result<Request, Failure> {
      var (c, ok) := ConnectionString.Initialize(storage.rt, c0, storage.connectionString);
      if ok then BlobRequests.FetchRequest(storage.rt, c, verb, url, data, caller, date) else Failure(InvalidAccountKey)
    }

    /** `fetch(method, url, data, headers)`; `data` is the byte size of the data. */
    method Fetch(verb: string, url: string, data: Option<nat>, caller: Headers, date: string) returns (r: Result<Request, Failure>)
      modifies storage
      ensures storage.Creds() == ConnectionString.Initialize(storage.rt, old(storage.Creds()), storage.connectionString).0
      ensures r == Expected(old(storage.Creds()), verb, url, data, caller, date)
      ensures storage.containers == old(storage.containers) && storage.tables == old(storage.tables)
    {
      var c0 := storage.Creds();
      var ok := storage.Initialize();
      if !ok {
        return Failure(InvalidAccountKey);
      }
      InitializeTwice(storage.rt, c0, storage.connectionString);
      var headers := BlobRequests.Defaults(date);
      if BlobRequests.IsBlockUpload(verb, url) {
        headers := Set(headers, "x-ms-blob-type", "BlockBlob");
        if data.None? {
          return Failure(MissingData);
        }
        headers := Set(headers, "Content-Length", Decimal(data.value));
      }
      headers := CopyInto(headers, caller);
      var auth := storage.CreateAuthorization(verb, url, headers, false);
      if auth.Failure? {
        return Failure(auth.error);
      }
      headers := Set(headers, "Authorization", auth.value);
      var body := if data.Some? then Data(data.value) else NoBody;
      r := Success(Request(verb, BlobRequests.ServiceUrl(storage.Creds(), url), headers, body));
    }

    /** `list()`. */
    method List(date: string) returns (r: Result<Request, Failure>)
      modifies storage
      ensures storage.Creds() == ConnectionString.Initialize(storage.rt, old(storage.Creds()), storage.connectionString).0
      ensures r == Expected(old(storage.Creds()), "get", BlobRequests.ListUrl(name), None, [], date)
      ensures storage.containers == old(storage.containers) && storage.tables == old(storage.tables)
    {
      r := Fetch("get", BlobRequests.ListUrl(name), None, [], date);
    }
  }

  /** A directory inside a container. */
  datatype ContainerDirectory = ContainerDirectory(container: Container, path: string) {
    /** `file(p)`: a file of the same container, below the directory. */
    function File(p: string): (f: ContainerFile)
      ensures f.container == container && f.path == BlobRequests.DirectoryFilePath(path, p)
    {
      ContainerFile(container, BlobRequests.DirectoryFilePath(path, p))
    }

    /** `list()`: the container list, restricted by `prefix` when the path is non-empty. */
    method List(date: string) returns (r: Result<Request, Failure>)
      modifies container.storage
      ensures container.storage.containers == old(container.storage.containers) && container.storage.tables == old(container.storage.tables)
      ensures container.storage.Creds() == ConnectionString.Initialize(container.storage.rt, old(container.storage.Creds()), container.storage.connectionString).0
      ensures r == container.Expected(old(container.storage.Creds()), "get", BlobRequests.DirectoryListUrl(container.name, path), None, [], date)
    {
      r := container.Fetch("get", BlobRequests.DirectoryListUrl(container.name, path), None, [], date);
    }
  }

  /** A blob of a container. */
  datatype ContainerFile = ContainerFile(container: Container, path: string) {
    /** `put(data, contentType)`: a block upload of `size` bytes. */
    method Put(size: nat, contentType: string, date: string) returns (r: Result<Request, Failure>)
      modifies container.storage
      ensures container.storage.containers == old(container.storage.containers) && container.storage.tables == old(container.storage.tables)
      ensures container.storage.Creds() == ConnectionString.Initialize(container.storage.rt, old(container.storage.Creds()), container.storage.connectionString).0
      ensures r == container.Expected(old(container.storage.Creds()), "put", BlobRequests.FileUrl(container.name, path),
                                      Some(size), BlobRequests.ContentTypeHeader(contentType), date)
    {
      r := container.Fetch("put", BlobRequests.FileUrl(container.name, path), Some(size), BlobRequests.ContentTypeHeader(contentType), date);
    }

    /** `get()`. */
    method Get(date: string) returns (r: Result<Request, Failure>)
      modifies container.storage
      ensures container.storage.containers == old(container.storage.containers) && container.storage.tables == old(container.storage.tables)
      ensures container.storage.Creds() == ConnectionString.Initialize(container.storage.rt, old(container.storage.Creds()), container.storage.connectionString).0
      ensures r == container.Expected(old(container.storage.Creds()), "get", BlobRequests.FileUrl(container.name, path), None, [], date)
    {
      r := container.Fetch("get", BlobRequests.FileUrl(container.name, path), None, [], date);
    }

    /** `delete()`. */
    method Delete(date: string) returns (r: Result<Request, Failure>)
      modifies container.storage
      ensures container.storage.containers == old(container.storage.containers) && container.storage.tables == old(container.storage.tables)
      ensures container.storage.Creds() == ConnectionString.Initialize(container.storage.rt, old(container.storage.Creds()), container.storage.connectionString).0
      ensures r == container.Expected(old(container.storage.Creds()), "delete", BlobRequests.FileUrl(container.name, path), None, [], date)
    {
      r := container.Fetch("delete", BlobRequests.FileUrl(container.name, path), None, [], date);
    }
  }

  /** A table of an account. */
  class Table {
    const storage: AzureStorage
    const name: string

    constructor(storage: AzureStorage, name: string)
      ensures this.storage == storage && this.name == name
    {
      this.storage := storage;
      this.name := name;
    }

    /** `partition(partitionKey)`. */
    function Partition(partitionKey: string): (p: TablePartition)
      ensures p.table == this && p.partitionKey == partitionKey
    {
      TablePartition(this, partitionKey)
    }

    /** `filter(condition)`: a filtered view with one condition. */
    function Filter(condition: string): (f: FilteredTable)
      ensures f.table == this && f.conditions == [condition]
    {
      FilteredTable(this, [condition])
    }

    /** What `fetch` yields when the account's fields were `c0`: the request of
        the table rules over the initialized credentials, or a failure. */
    function Expected(c0: Credentials, verb: string, url: string, data: Option<Record<Scalar>>, caller: Headers, date: string): Result<Request, Failure> {
      var (c, ok) := ConnectionString.Initialize(storage.rt, c0, storage.connectionString);
      if ok then TableRequests.FetchRequest(storage.rt, c, verb, url, data, caller, date) else Failure(InvalidAccountKey)
    }

    /** `fetch(method, url, data, headers)`. */
    method Fetch(verb: string, url: string, data: Option<Record<Scalar>>, caller: Headers, date: string) returns (r: Result<Request, Failure>)
      modifies storage
      ensures storage.Creds() == ConnectionString.Initialize(storage.rt, old(storage.Creds()), storage.connectionString).0
      ensures r == Expected(old(storage.Creds()), verb, url, data, caller, date)
      ensures storage.containers == old(storage.containers) && storage.tables == old(storage.tables)
    {
      var headers := TableRequests.Defaults(date);
      var body := None;
      if TableRequests.SendsBody(verb) {
        body := TableRequests.BodyText(storage.rt, data);
        headers := Set(headers, "Content-Type", "application/json");
        headers := Set(headers, "Content-Length", TableRequests.ContentLength(body));
      }
      headers := CopyInto(headers, caller);
      var auth := storage.CreateAuthorization(verb, url, headers, true);
      if auth.Failure? {
        return Failure(auth.error);
      }
      headers := Set(headers, "Authorization", auth.value);
      r := Success(Request(verb, TableRequests.ServiceUrl(storage.Creds(), url), headers,
                           if body.Some? then Text(body.value) else NoBody));
    }

    /** `list(isFullMetadata)`. */
    method List(isFullMetadata: bool, date: string) returns (r: Result<Request, Failure>)
      modifies storage
      ensures storage.containers == old(storage.containers) && storage.tables == old(storage.tables)
      ensures storage.Creds() == ConnectionString.Initialize(storage.rt, old(storage.Creds()), storage.connectionString).0
      ensures r == Expected(old(storage.Creds()), "get", TableRequests.ListUrl(name), None, TableRequests.AcceptHeader(isFullMetadata), date)
    {
      r := Fetch("get", TableRequests.ListUrl(name), None, TableRequests.AcceptHeader(isFullMetadata), date);
    }
  }

  /** A table with `$filter` conditions. */
  datatype FilteredTable = FilteredTable(table: Table, conditions: seq<string>) {
    /** `filter(condition)`: a new view with the condition added at the end. */
    function Filter(condition: string): (f: FilteredTable)
      ensures f.table == table && f.conditions == conditions + [condition]
    {
      FilteredTable(table, conditions + [condition])
    }

    /** `list(isFullMetadata)`. */
    method List(isFullMetadata: bool, date: string) returns (r: Result<Request, Failure>)
      modifies table.storage
      ensures table.storage.containers == old(table.storage.containers) && table.storage.tables == old(table.storage.tables)
      ensures table.storage.Creds() == ConnectionString.Initialize(table.storage.rt, old(table.storage.Creds()), table.storage.connectionString).0
      ensures r == table.Expected(old(table.storage.Creds()), "get", TableRequests.FilteredListUrl(table.name, conditions),
                                  None, TableRequests.AcceptHeader(isFullMetadata), date)
    {
      r := table.Fetch("get", TableRequests.FilteredListUrl(table.name, conditions), None, TableRequests.AcceptHeader(isFullMetadata), date);
    }
  }

  /** The entities of a table with one partition key. */
  datatype TablePartition = TablePartition(table: Table, partitionKey: string) {
    /** `entity(rowKey)`. */
    function Entity(rowKey: string): (e: TableEntity)
      ensures e.partition == this && e.rowKey == rowKey
    {
      TableEntity(this, rowKey)
    }

    /** `filter(condition)`. */
    function Filter(condition: string): (f: FilteredTablePartition)
      ensures f.partition == this && f.conditions == [condition]
    {
      FilteredTablePartition(this, [condition])
    }

    /** `list(isFullMetadata)`. */
    method List(isFullMetadata: bool, date: string) returns (r: Result<Request, Failure>)
      modifies table.storage
      ensures table.storage.containers == old(table.storage.containers) && table.storage.tables == old(table.storage.tables)
      ensures table.storage.Creds() == ConnectionString.Initialize(table.storage.rt, old(table.storage.Creds()), table.storage.connectionString).0
      ensures r == table.Expected(old(table.storage.Creds()), "get", TableRequests.PartitionListUrl(table.name, partitionKey),
                                  None, TableRequests.AcceptHeader(isFullMetadata), date)
    {
      r := table.Fetch("get", TableRequests.PartitionListUrl(table.name, partitionKey), None, TableRequests.AcceptHeader(isFullMetadata), date);
    }
  }

  /** A partition with further `$filter` conditions. */
  datatype FilteredTablePartition = FilteredTablePartition(partition: TablePartition, conditions: seq<string>) {
    /** `filter(condition)`: a new view with the condition added at the end. */
    function Filter(condition: string): (f: FilteredTablePartition)
      ensures f.partition == partition && f.conditions == conditions + [condition]
    {
      FilteredTablePartition(partition, conditions + [condition])
    }

    /** `list(isFullMetadata)`. */
    method List(isFullMetadata: bool, date: string) returns (r: Result<Request, Failure>)
      modifies partition.table.storage
      ensures partition.table.storage.containers == old(partition.table.storage.containers) && partition.table.storage.tables == old(partition.table.storage.tables)
      ensures partition.table.storage.Creds() == ConnectionString.Initialize(partition.table.storage.rt, old(partition.table.storage.Creds()), partition.table.storage.connectionString).0
      ensures r == partition.table.Expected(old(partition.table.storage.Creds()), "get",
                     TableRequests.FilteredPartitionListUrl(partition.table.name, partition.partitionKey, conditions),
                     None, TableRequests.AcceptHeader(isFullMetadata), date)
    {
      r := partition.table.Fetch("get", TableRequests.FilteredPartitionListUrl(partition.table.name, partition.partitionKey, conditions),
                                 None, TableRequests.AcceptHeader(isFullMetadata), date);
    }
  }

  /** One entity of a partition. */
  datatype TableEntity = TableEntity(partition: TablePartition, rowKey: string) {
    function Url(): string {
      TableRequests.EntityUrl(partition.table.name, partition.partitionKey, rowKey)
    }

    /** `post(data)`: inserts into the table, with the keys put before the data. */
    method Post(data: Record<Scalar>, date: string) returns (r: Result<Request, Failure>)
      modifies partition.table.storage
      ensures partition.table.storage.containers == old(partition.table.storage.containers) && partition.table.storage.tables == old(partition.table.storage.tables)
      ensures partition.table.storage.Creds() == ConnectionString.Initialize(partition.table.storage.rt, old(partition.table.storage.Creds()), partition.table.storage.connectionString).0
      ensures r == partition.table.Expected(old(partition.table.storage.Creds()), "post", partition.table.name,
                     Some(TableRequests.EntityBody(partition.partitionKey, rowKey, data)), [], date)
    {
      r := partition.table.Fetch("post", partition.table.name, Some(TableRequests.EntityBody(partition.partitionKey, rowKey, data)), [], date);
    }

    /** `get(isFullMetadata)`. */
    method Get(isFullMetadata: bool, date: string) returns (r: Result<Request, Failure>)
      modifies partition.table.storage
      ensures partition.table.storage.containers == old(partition.table.storage.containers) && partition.table.storage.tables == old(partition.table.storage.tables)
      ensures partition.table.storage.Creds() == ConnectionString.Initialize(partition.table.storage.rt, old(partition.table.storage.Creds()), partition.table.storage.connectionString).0
      ensures r == partition.table.Expected(old(partition.table.storage.Creds()), "get", Url(), None, TableRequests.AcceptHeader(isFullMetadata), date)
    {
      r := partition.table.Fetch("get", Url(), None, TableRequests.AcceptHeader(isFullMetadata), date);
    }

    /** `put(data, eTag)`: replaces the entity, guarded by `If-Match`. */
    method Put(data: Record<Scalar>, eTag: Option<string>, date: string) returns (r: Result<Request, Failure>)
      modifies partition.table.storage
      ensures partition.table.storage.containers == old(partition.table.storage.containers) && partition.table.storage.tables == old(partition.table.storage.tables)
      ensures partition.table.storage.Creds() == ConnectionString.Initialize(partition.table.storage.rt, old(partition.table.storage.Creds()), partition.table.storage.connectionString).0
      ensures r == partition.table.Expected(old(partition.table.storage.Creds()), "put", Url(), Some(data),
                     [("If-Match", TableRequests.IfMatch(eTag))], date)
    {
      r := partition.table.Fetch("put", Url(), Some(data), [("If-Match", TableRequests.IfMatch(eTag))], date);
    }

    /** `merge(data, eTag)`: merges into the entity, guarded by `If-Match`. */
    method Merge(data: Record<Scalar>, eTag: Option<string>, date: string) returns (r: Result<Request, Failure>)
      modifies partition.table.storage
      ensures partition.table.storage.containers == old(partition.table.storage.containers) && partition.table.storage.tables == old(partition.table.storage.tables)
      ensures partition.table.storage.Creds() == ConnectionString.Initialize(partition.table.storage.rt, old(partition.table.storage.Creds()), partition.table.storage.connectionString).0
      ensures r == partition.table.Expected(old(partition.table.storage.Creds()), "merge", Url(), Some(data),
                     [("If-Match", TableRequests.IfMatch(eTag))], date)
    {
      r := partition.table.Fetch("merge", Url(), Some(data), [("If-Match", TableRequests.IfMatch(eTag))], date);
    }

    /** `delete(eTag)`: deletes the entity, guarded by `If-Match`. */
    method Delete(eTag: Option<string>, date: string) returns (r: Result<Request, Failure>)
      modifies partition.table.storage
      ensures partition.table.storage.containers == old(partition.table.storage.containers) && partition.table.storage.tables == old(partition.table.storage.tables)
      ensures partition.table.storage.Creds() == ConnectionString.Initialize(partition.table.storage.rt, old(partition.table.storage.Creds()), partition.table.storage.connectionString).0
      ensures r == partition.table.Expected(old(partition.table.storage.Creds()), "delete", Url(), None,
                     [("If-Match", TableRequests.IfMatch(eTag))], date)
    {
      r := partition.table.Fetch("delete", Url(), None, [("If-Match", TableRequests.IfMatch(eTag))], date);
    }
  }

  /** A queue of an account. */
  class Queue {
    const storage: AzureStorage
    const name: string

    constructor(storage: AzureStorage, name: string)
      ensures this.storage == storage && this.name == name
    {
      this.storage := storage;
      this.name := name;
    }

    /** What `fetch` yields when the account's fields were `c0`. */
    function Expected(c0: Credentials, verb: string, url: string, data: Option<string>, caller: Headers, date: string): Result<Request, Failure> {
      var (c, ok) := ConnectionString.Initialize(storage.rt, c0, storage.connectionString);
      if ok then QueueRequests.FetchRequest(storage.rt, c, verb, url, data, caller, date) else Failure(InvalidAccountKey)
    }

    /** `fetch(method, url, data, headers)`. */
    method Fetch(verb: string, url: string, data: Option<string>, caller: Headers, date: string) returns (r: Result<Request, Failure>)
      modifies storage
      ensures storage.Creds() == ConnectionString.Initialize(storage.rt, old(storage.Creds()), storage.connectionString).0
      ensures r == Expected(old(storage.Creds()), verb, url, data, caller, date)
      ensures storage.containers == old(storage.containers) && storage.tables == old(storage.tables)
    {
      var headers := QueueRequests.Defaults(date);
      var body := NoBody;
      if QueueRequests.SendsBody(verb) {
        body := if data.Some? then Text(data.value) else NoBody;
        headers := Set(headers, "Content-Type", "application/xml");
        headers := Set(headers, "Content-Length", QueueRequests.ContentLength(data));
      }
      headers := CopyInto(headers, caller);
      var auth := storage.CreateAuthorization(verb, url, headers, false);
      if auth.Failure? {
        return Failure(auth.error);
      }
      headers := Set(headers, "Authorization", auth.value);
      r := Success(Request(verb, QueueRequests.ServiceUrl(storage.Creds(), url), headers, body));
    }

    /** `put(message)`: posts the message in its XML envelope. */
    method Put(message: string, date: string) returns (r: Result<Request, Failure>)
      modifies storage
      ensures storage.containers == old(storage.containers) && storage.tables == old(storage.tables)
      ensures storage.Creds() == ConnectionString.Initialize(storage.rt, old(storage.Creds()), storage.connectionString).0
      ensures r == Expected(old(storage.Creds()), "post", QueueRequests.MessagesUrl(name), Some(QueueRequests.MessageXml(message)), [], date)
    {
      r := Fetch("post", QueueRequests.MessagesUrl(name), Some(QueueRequests.MessageXml(message)), [], date);
    }
  }
}
