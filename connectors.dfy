/** The storage and policy-administration connectors: a constant table, the
    credentials check, the file listing guard and the upload name rule.
    Reading and writing the credentials file, the connector directories and
    the uploaded bytes is I/O; the credentials object and the directory
    listing are parameters. */
module Connectors {
  import opened Js
  import opened Text
  import opened Seqs

  datatype Kind = Storage | Pas

  /** One row of the `connectors` table; only storage connectors have a path. */
  datatype Connector = Connector(id: string, name: string, kind: Kind, path: Option<string>, requiredFields: seq<string>)

  /** The `connectors` table, in its order. */
  const Table: seq<Connector> := [
    Connector("box", "Box", Storage, Some("data/connectors/box"), ["accessToken"]),
    Connector("onedrive", "OneDrive", Storage, Some("data/connectors/onedrive"), ["accessToken"]),
    Connector("duckcreek", "DuckCreek", Pas, None, ["apiKey", "baseUrl"]),
    Connector("guidewire", "Guidewire", Pas, None, ["apiKey", "baseUrl"])
  ]

  /** `connectors.find((c) => c.id === id)`. */
  function GetConnector(id: string): Option<Connector>
  {
    Find(Table, (c: Connector) => c.id == id)
  }

  /** The table's ids are distinct, storage connectors have a path and need
      an access token, and the others need an API key and a base URL. */
  lemma TableShape()
    ensures forall i, j :: 0 <= i < j < |Table| ==> Table[i].id != Table[j].id
    ensures forall i :: 0 <= i < |Table| && Table[i].kind == Storage ==>
      Table[i].path.Some? && Table[i].requiredFields == ["accessToken"]
    ensures forall i :: 0 <= i < |Table| && Table[i].kind == Pas ==> Table[i].requiredFields == ["apiKey", "baseUrl"]
  {
  }

  /** `getConnector` finds the table row with the id, and only that row. */
  lemma GetConnectorSpec(id: string)
    ensures GetConnector(id).None? <==> forall i :: 0 <= i < |Table| ==> Table[i].id != id
    ensures GetConnector(id).Some? ==> GetConnector(id).value.id == id && GetConnector(id).value in Table
  {
    FindSpec(Table, (c: Connector) => c.id == id);
  }

  /** A credentials field: a string, or some other JSON value. */
  datatype CredValue = Str(s: string) | NotString

  /** The credentials object: connector id to its saved fields. An entry
      that is falsy is absent; one that is not an object has no fields. */
  type Credentials = map<string, map<string, CredValue>>

  /** `typeof c[f] === 'string' && c[f].trim().length > 0`. */
  predicate Filled(entry: map<string, CredValue>, field: string)
  {
    field in entry && entry[field].Str? && |Trim(entry[field].s)| > 0
  }

  /** `isConnected(id, creds)`. */
  predicate IsConnected(id: string, creds: Credentials)
  {
    var cfg := GetConnector(id);
    cfg.Some? && id in creds
    && forall i :: 0 <= i < |cfg.value.requiredFields| ==> Filled(creds[id], cfg.value.requiredFields[i])
  }

  /** A field is filled exactly when it is a string holding a character
      other than white space. */
  lemma FilledSpec(entry: map<string, CredValue>, field: string)
    ensures Filled(entry, field) <==>
      field in entry && entry[field].Str? && exists i :: 0 <= i < |entry[field].s| && !IsSpace(entry[field].s[i])
  {
  }

  /** Unknown connectors and connectors without saved credentials are not
      connected; a known one is connected exactly when every required field
      is filled. */
  lemma IsConnectedSpec(id: string, creds: Credentials)
    ensures GetConnector(id).None? ==> !IsConnected(id, creds)
    ensures id !in creds ==> !IsConnected(id, creds)
    ensures GetConnector(id).Some? && id in creds ==>
      (IsConnected(id, creds) <==> forall f :: f in GetConnector(id).value.requiredFields ==> Filled(creds[id], f))
  {
  }

  /** The storage connectors need exactly a filled access token. */
  lemma StorageConnected(id: string, creds: Credentials)
    requires GetConnector(id).Some? && GetConnector(id).value.kind == Storage
    ensures IsConnected(id, creds) <==> id in creds && Filled(creds[id], "accessToken")
  {
    GetConnectorSpec(id);
    TableShape();
    var req := GetConnector(id).value.requiredFields;
    assert req[0] == "accessToken" && |req| == 1;
  }

  /** The policy-administration connectors need a filled API key and base URL. */
  lemma PasConnected(id: string, creds: Credentials)
    requires GetConnector(id).Some? && GetConnector(id).value.kind == Pas
    ensures IsConnected(id, creds) <==> id in creds && Filled(creds[id], "apiKey") && Filled(creds[id], "baseUrl")
  {
    GetConnectorSpec(id);
    TableShape();
    var req := GetConnector(id).value.requiredFields;
    assert req == ["apiKey", "baseUrl"];
    if id in creds {
      AllOfPair(req, (f: string) => Filled(creds[id], f));
    }
  }

  /** A property holds of every element of a two-element list exactly when it
      holds of both. */
  lemma AllOfPair(req: seq<string>, p: string -> bool)
    requires |req| == 2
    ensures (forall i :: 0 <= i < |req| ==> p(req[i])) <==> p(req[0]) && p(req[1])
  {
  }

  /** A connector file: its name and its path under the connector's directory. */
  datatype StoredFile = StoredFile(name: string, path: string)

  /** `{ name, path: `${cfg.path}/${name}` }`. */
  function FileOf(cfg: Connector, name: string): StoredFile
  {
    StoredFile(name, Js.Text(cfg.path) + "/" + name)
  }

  /** `cfg && cfg.type === 'storage'`. */
  predicate IsStorage(id: string)
  {
    GetConnector(id).Some? && GetConnector(id).value.kind == Storage
  }

  /** `listFiles(id)` given the connector directory's entries. */
  function ListFiles(id: string, entries: seq<string>): (files: seq<StoredFile>)
    ensures !IsStorage(id) ==> files == []
    ensures IsStorage(id) ==>
      |files| == |entries| && forall i :: 0 <= i < |entries| ==> files[i] == FileOf(GetConnector(id).value, entries[i])
  {
    if !IsStorage(id) then []
    else seq(|entries|, i requires 0 <= i < |entries| => FileOf(GetConnector(id).value, entries[i]))
  }

  /** A character the upload name rule keeps: `[a-zA-Z0-9._-]`. */
  predicate Allowed(c: char)
  {
    ('a' <= c <= 'z') || ('A' <= c <= 'Z') || ('0' <= c <= '9') || c == '.' || c == '_' || c == '-'
  }

  /** `fileName.replace(/[^a-zA-Z0-9._-]/g, '_')`. */
  function SafeName(fileName: string): string
  {
    seq(|fileName|, i requires 0 <= i < |fileName| => if Allowed(fileName[i]) then fileName[i] else '_')
  }

  /** The safe name has the same length, holds only allowed characters, keeps
      every allowed one and puts '_' in place of every other. */
  lemma SafeNameSpec(fileName: string)
    ensures |SafeName(fileName)| == |fileName|
    ensures forall i :: 0 <= i < |fileName| ==> Allowed(SafeName(fileName)[i])
    ensures forall i :: 0 <= i < |fileName| && Allowed(fileName[i]) ==> SafeName(fileName)[i] == fileName[i]
    ensures forall i :: 0 <= i < |fileName| && !Allowed(fileName[i]) ==> SafeName(fileName)[i] == '_'
  {
  }

  /** A name made only of allowed characters is kept, and only such a name;
      so making a name safe twice changes nothing more. */
  lemma SafeNameFixed(fileName: string)
    ensures SafeName(fileName) == fileName <==> forall i :: 0 <= i < |fileName| ==> Allowed(fileName[i])
    ensures SafeName(SafeName(fileName)) == SafeName(fileName)
  {
    if SafeName(fileName) == fileName {
      forall i | 0 <= i < |fileName| ensures Allowed(fileName[i]) {
        assert SafeName(fileName)[i] == fileName[i];
      }
    }
  }

  datatype Result<T> = Success(value: T) | Failure(error: string)

  /** `saveUpload(id, fileName, buffer)` without the write: the stored name
      and path, or the "Unsupported connector" error for an unknown or
      non-storage connector. */
  function SaveUpload(id: string, fileName: string): (r: Result<StoredFile>)
    ensures !IsStorage(id) ==> r == Failure("Unsupported connector")
    ensures IsStorage(id) ==>
      r.Success? && r.value.name == SafeName(fileName)
      && r.value.path == Js.Text(GetConnector(id).value.path) + "/" + SafeName(fileName)
  {
    var cfg := GetConnector(id);
    if cfg.None? || cfg.value.kind != Storage then Failure("Unsupported connector")
    else Success(FileOf(cfg.value, SafeName(fileName)))
  }

  /** A saved upload is listed, under the same name and path, once its safe
      name is among the directory's entries. */
  lemma SavedUploadListed(id: string, fileName: string, entries: seq<string>, k: nat)
    requires SaveUpload(id, fileName).Success?
    requires k < |entries| && entries[k] == SafeName(fileName)
    ensures ListFiles(id, entries)[k] == SaveUpload(id, fileName).value
  {
  }
}
