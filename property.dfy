/** Custom properties (tiled/property.go): the property record, its first-match lookup, the
    type-checked getters and the property type parser. */
module Properties {
  import opened Wrappers
  import opened Errors
  import opened Text
  import Lookup

  datatype PropertyType = String | Int | Float | Bool | Color | File | Obj | Class

  datatype Property = Property(
    name: string,
    propertyType: PropertyType,
    customType: string,
    value: string,
    innerValue: string,
    properties: Option<seq<Property>>)

  /** `Properties.WithName`: the first property with the name, or nothing. */
  function WithName(pl: seq<Property>, name: string): (r: Option<Property>)
    ensures r.None? <==> forall j :: 0 <= j < |pl| ==> pl[j].name != name
    ensures r.Some? ==> exists i :: 0 <= i < |pl| && pl[i] == r.value && r.value.name == name &&
                                    forall j :: 0 <= j < i ==> pl[j].name != name
  {
    Lookup.FirstMatch(pl, (p: Property) => p.name == name)
  }

  /** `Property.Int`: a wrongly typed property is a type error whatever its value; an int
      property converts with ParseInt in 64 bits, and a conversion failure is wrapped. */
  function GetInt(p: Property): (r: Result<int>)
    ensures p.propertyType != Int ==> r == Err(PropertyWrongType("int"))
    ensures p.propertyType == Int ==>
      (r.Ok? <==> ParseInt(p.value, 64).Ok?) &&
      (r.Ok? ==> r.value == ParseInt(p.value, 64).value && -0x8000_0000_0000_0000 <= r.value < 0x8000_0000_0000_0000) &&
      (r.Err? ==> r.error == PropertyFailedConversion(ParseInt(p.value, 64).error))
  {
    if p.propertyType != Int then Err(PropertyWrongType("int"))
    else match ParseInt(p.value, 64)
      case Err(e) => Err(PropertyFailedConversion(e))
      case Ok(v) => Ok(v)
  }

  /** An int property holding the decimal text of a 64-bit value reads back that value. */
  lemma GetIntFormatInt(p: Property, n: int)
    requires p.propertyType == Int && -0x8000_0000_0000_0000 <= n < 0x8000_0000_0000_0000
    requires p.value == FormatInt(n)
    ensures GetInt(p) == Ok(n)
  {
    ParseIntFormatInt(n, 64);
  }

  /** `Property.Bool`: only the exact text "true" is true; "True" or "1" read as false without
      error. A property of another type is a type error. */
  function GetBool(p: Property): (r: Result<bool>)
    ensures r.Ok? <==> p.propertyType == Bool
    ensures r.Ok? ==> (r.value <==> p.value == "true")
    ensures r.Err? ==> r.error == PropertyWrongType("bool")
  {
    if p.propertyType != Bool then Err(PropertyWrongType("bool"))
    else Ok(p.value == "true")
  }

  function PropertyTypeName(t: PropertyType): string
  {
    match t
    case String => "string"
    case Int => "int"
    case Float => "float"
    case Bool => "bool"
    case Color => "color"
    case File => "file"
    case Obj => "object"
    case Class => "class"
  }

  /** `PropertyType.UnmarshalText`: one of eight names in any letter case ("object" is Obj);
      anything else is an error carrying the lower-cased text. */
  function ParsePropertyType(text: string): (r: Result<PropertyType>)
    ensures r.Ok? <==> ToLower(text) in {"string", "int", "float", "bool", "color", "file", "object", "class"}
    ensures r.Ok? ==> PropertyTypeName(r.value) == ToLower(text)
    ensures r.Err? ==> r.error == UnknownPropertyType(ToLower(text))
  {
    var s := ToLower(text);
    if s == "string" then Ok(String)
    else if s == "int" then Ok(Int)
    else if s == "float" then Ok(Float)
    else if s == "bool" then Ok(Bool)
    else if s == "color" then Ok(Color)
    else if s == "file" then Ok(File)
    else if s == "object" then Ok(Obj)
    else if s == "class" then Ok(Class)
    else Err(UnknownPropertyType(s))
  }

  lemma ParsePropertyTypeIgnoresCase(text: string)
    ensures ParsePropertyType(text) == ParsePropertyType(ToLower(text))
  {
    ToLowerIdempotent(text);
  }

  lemma ParsePropertyTypeName(t: PropertyType, text: string)
    requires ToLower(text) == PropertyTypeName(t)
    ensures ParsePropertyType(text) == Ok(t)
  {
  }
}
