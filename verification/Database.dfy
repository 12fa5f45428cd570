/** The value types that stores exchange with the application. */
module Database {
  import opened Wrappers

  datatype Table = Table(name: string, kind: string)

  datatype Column = Column(name: string, kind: string, nullable: bool)

  datatype Index = Index(name: string, columns: seq<string>, unique: bool)

  datatype Schema = Schema(columns: seq<Column>, indexes: seq<Index>)

  datatype Value = Value(text: string, isNull: bool, binary: bool, truncated: bool)

  datatype Filter = Filter(column: string, op: string, value: string)

  datatype BrowseRequest = BrowseRequest(table: string, filters: seq<Filter>, sort: string, desc: bool,
                                         limit: int, offset: int)

  datatype Page = Page(columns: seq<string>, rows: seq<seq<Value>>, hasMore: bool, notice: string)

  const EMPTY_SCHEMA := Schema([], [])

  const EMPTY_PAGE := Page([], [], false, "")

  function NewRequest(limit: int): BrowseRequest {
    BrowseRequest("", [], "", false, limit, 0)
  }

  predicate HasTable(tables: seq<Table>, name: string) {
    exists i :: 0 <= i < |tables| && tables[i].name == name
  }

  /** One page of an already filtered and ordered list of rows. */
  function PageOf(columns: seq<string>, rows: seq<seq<Value>>, limit: nat, offset: nat, notice: string): Page {
    var start := if offset < |rows| then offset else |rows|;
    var size := if limit < |rows| - start then limit else |rows| - start;
    Page(columns, rows[start..start + size], start + size < |rows|, notice)
  }
}
