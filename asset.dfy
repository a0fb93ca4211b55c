/**
 * Assets and their custom properties (scene/asset.cpp). A Value is a tagged union of the
 * property types; its constructors set the tag and zero the scalar fields, its setters change
 * the tag and the one payload they are given, and leave every other payload as it was. An
 * Asset keeps a name, a file path and a map from keys to Values.
 */
module AssetModel {
  /** Value::Type. */
  datatype Kind = EMPTY | INT | BOOL | FLOAT | STRING | BINARY | ARRAY | MAP

  /** Asset::Type. */
  datatype AssetType = UNDEFINED | MESH | MODEL | CAMERA | LIGHT | IMAGE | MATERIAL | NODE

  /**
   * A copy of a Value, as it is stored in an array, a map or the property map of an asset:
   * the tag and all eight payload fields, the stale ones included.
   */
  datatype Data = Data(kind: Kind, intValue: int, boolValue: bool, floatValue: real,
                       stringValue: string, binaryValue: seq<bv8>, arrayValue: seq<Data>,
                       mapValue: map<string, Data>)

  /** Value{}: the EMPTY value with every payload zero or empty. */
  function EmptyData(): (d: Data)
    ensures d.kind == EMPTY && d.intValue == 0 && !d.boolValue && d.floatValue == 0.0
    ensures d.stringValue == [] && d.binaryValue == [] && d.arrayValue == [] && d.mapValue == map[]
  {
    Data(EMPTY, 0, false, 0.0, [], [], [], map[])
  }

  class Value {
    var kind: Kind
    var intValue: int
    var boolValue: bool
    var floatValue: real
    var stringValue: string
    var binaryValue: seq<bv8>
    var arrayValue: seq<Data>
    var mapValue: map<string, Data>

    /** The value as it is copied out of this object. */
    function Snapshot(): Data
      reads this
    {
      Data(kind, intValue, boolValue, floatValue, stringValue, binaryValue, arrayValue, mapValue)
    }

    /** Value(): EMPTY. */
    constructor ()
      ensures Snapshot() == EmptyData()
    {
      kind, intValue, boolValue, floatValue := EMPTY, 0, false, 0.0;
      stringValue, binaryValue, arrayValue, mapValue := [], [], [], map[];
    }

    /** Value(int): INT holding the integer, every other payload zero. */
    constructor OfInt(i: int)
      ensures Snapshot() == EmptyData().(kind := INT, intValue := i)
    {
      kind, intValue, boolValue, floatValue := INT, i, false, 0.0;
      stringValue, binaryValue, arrayValue, mapValue := [], [], [], map[];
    }

    /** Value(bool). */
    constructor OfBool(b: bool)
      ensures Snapshot() == EmptyData().(kind := BOOL, boolValue := b)
    {
      kind, intValue, boolValue, floatValue := BOOL, 0, b, 0.0;
      stringValue, binaryValue, arrayValue, mapValue := [], [], [], map[];
    }

    /** Value(float). */
    constructor OfFloat(f: real)
      ensures Snapshot() == EmptyData().(kind := FLOAT, floatValue := f)
    {
      kind, intValue, boolValue, floatValue := FLOAT, 0, false, f;
      stringValue, binaryValue, arrayValue, mapValue := [], [], [], map[];
    }

    /** Value(string_view). */
    constructor OfString(s: string)
      ensures Snapshot() == EmptyData().(kind := STRING, stringValue := s)
    {
      kind, intValue, boolValue, floatValue := STRING, 0, false, 0.0;
      stringValue, binaryValue, arrayValue, mapValue := s, [], [], map[];
    }

    /** Value(vector<unsigned char>). */
    constructor OfBinary(b: seq<bv8>)
      ensures Snapshot() == EmptyData().(kind := BINARY, binaryValue := b)
    {
      kind, intValue, boolValue, floatValue := BINARY, 0, false, 0.0;
      stringValue, binaryValue, arrayValue, mapValue := [], b, [], map[];
    }

    /** Value(vector<Value>). */
    constructor OfArray(a: seq<Data>)
      ensures Snapshot() == EmptyData().(kind := ARRAY, arrayValue := a)
    {
      kind, intValue, boolValue, floatValue := ARRAY, 0, false, 0.0;
      stringValue, binaryValue, arrayValue, mapValue := [], [], a, map[];
    }

    /** Value(map<string, Value>). */
    constructor OfMap(m: map<string, Data>)
      ensures Snapshot() == EmptyData().(kind := MAP, mapValue := m)
    {
      kind, intValue, boolValue, floatValue := MAP, 0, false, 0.0;
      stringValue, binaryValue, arrayValue, mapValue := [], [], [], m;
    }

    predicate IsEmpty() reads this { kind == EMPTY }
    predicate IsInt() reads this { kind == INT }
    predicate IsBool() reads this { kind == BOOL }
    predicate IsFloat() reads this { kind == FLOAT }
    predicate IsString() reads this { kind == STRING }
    predicate IsBinary() reads this { kind == BINARY }
    predicate IsArray() reads this { kind == ARRAY }
    predicate IsMap() reads this { kind == MAP }

    /** setInt: the tag becomes INT and the integer is stored; the other payloads keep their old contents. */
    method SetInt(i: int)
      modifies this
      ensures IsInt() && intValue == i
      ensures Snapshot() == old(Snapshot()).(kind := INT, intValue := i)
    {
      kind := INT;
      intValue := i;
    }

    /** setBool. */
    method SetBool(b: bool)
      modifies this
      ensures IsBool() && boolValue == b
      ensures Snapshot() == old(Snapshot()).(kind := BOOL, boolValue := b)
    {
      kind := BOOL;
      boolValue := b;
    }

    /** setFloat. */
    method SetFloat(f: real)
      modifies this
      ensures IsFloat() && floatValue == f
      ensures Snapshot() == old(Snapshot()).(kind := FLOAT, floatValue := f)
    {
      kind := FLOAT;
      floatValue := f;
    }

    /** setString. */
    method SetString(s: string)
      modifies this
      ensures IsString() && stringValue == s
      ensures Snapshot() == old(Snapshot()).(kind := STRING, stringValue := s)
    {
      kind := STRING;
      stringValue := s;
    }

    /** setBinary. */
    method SetBinary(b: seq<bv8>)
      modifies this
      ensures IsBinary() && binaryValue == b
      ensures Snapshot() == old(Snapshot()).(kind := BINARY, binaryValue := b)
    {
      kind := BINARY;
      binaryValue := b;
    }

    /** setArray. */
    method SetArray(a: seq<Data>)
      modifies this
      ensures IsArray() && arrayValue == a
      ensures Snapshot() == old(Snapshot()).(kind := ARRAY, arrayValue := a)
    {
      kind := ARRAY;
      arrayValue := a;
    }

    /** setMap. */
    method SetMap(m: map<string, Data>)
      modifies this
      ensures IsMap() && mapValue == m
      ensures Snapshot() == old(Snapshot()).(kind := MAP, mapValue := m)
    {
      kind := MAP;
      mapValue := m;
    }
  }

  /** The property lookup of getCustomProperty: the stored copy, or Value{} for a missing key. */
  function Lookup(properties: map<string, Data>, key: string): (v: Data)
    ensures key in properties ==> v == properties[key]
    ensures key !in properties ==> v.kind == EMPTY && v == EmptyData()
  {
    if key in properties then properties[key] else EmptyData()
  }

  class Asset {
    const assetType: AssetType
    /** The identifier drawn by the constructor from the UUID generator, which is a parameter here. */
    const uuid: nat
    var name: string
    var filepath: string
    var customProperties: map<string, Data>

    /** Asset(type, name): a named asset with no file path and no custom properties. */
    constructor (assetType: AssetType, name: string, uuid: nat)
      ensures this.assetType == assetType && this.uuid == uuid && this.name == name
      ensures filepath == [] && customProperties == map[]
    {
      this.assetType := assetType;
      this.uuid := uuid;
      this.name := name;
      filepath := [];
      customProperties := map[];
    }

    /** getCustomProperty: a copy of the stored value, Value{} (EMPTY) when the key is missing. */
    function GetCustomProperty(key: string): (v: Data)
      reads this
      ensures key in customProperties ==> v == customProperties[key]
      ensures key !in customProperties ==> v == EmptyData()
    {
      Lookup(customProperties, key)
    }

    /** setName. */
    method SetName(name: string)
      modifies this`name
      ensures this.name == name
    {
      this.name := name;
    }

    /** setFilepath. */
    method SetFilepath(filepath: string)
      modifies this`filepath
      ensures this.filepath == filepath
    {
      this.filepath := filepath;
    }

    /**
     * addCustomProperty: stores a copy under the key, replacing what was there; every other key
     * keeps its value.
     */
    method AddCustomProperty(key: string, value: Data)
      modifies this`customProperties
      ensures customProperties == old(customProperties)[key := value]
      ensures GetCustomProperty(key) == value
      ensures forall k :: k != key ==> GetCustomProperty(k) == old(GetCustomProperty(k))
    {
      customProperties := customProperties[key := value];
    }
  }
}
