/** The KV-cache quantisation types the loader accepts, and the lookup of a type by
    its name. */
module KvCache {
  import opened Utils

  /** Tensor element types of the tensor library (a subset; the names below are the
      library's own type names). */
  datatype GgmlType =
    | F32 | F16 | BF16 | Q8_0 | Q4_0 | Q4_1 | IQ4_NL | Q5_0 | Q5_1
    | Q8_1 | Q2_K | Q3_K | Q4_K | Q5_K | Q6_K | Q8_K | I8 | I16 | I32 | F64

  /** The name the tensor library gives each type. */
  function TypeName(t: GgmlType): string {
    match t
    case F32 => "f32"
    case F16 => "f16"
    case BF16 => "bf16"
    case Q8_0 => "q8_0"
    case Q4_0 => "q4_0"
    case Q4_1 => "q4_1"
    case IQ4_NL => "iq4_nl"
    case Q5_0 => "q5_0"
    case Q5_1 => "q5_1"
    case Q8_1 => "q8_1"
    case Q2_K => "q2_K"
    case Q3_K => "q3_K"
    case Q4_K => "q4_K"
    case Q5_K => "q5_K"
    case Q6_K => "q6_K"
    case Q8_K => "q8_K"
    case I8 => "i8"
    case I16 => "i16"
    case I32 => "i32"
    case F64 => "f64"
  }

  /** The supported KV-cache types, in the order the lookup tries them. */
  const KvCacheTypes: seq<GgmlType> := [F32, F16, BF16, Q8_0, Q4_0, Q4_1, IQ4_NL, Q5_0, Q5_1]

  /** The first type of the table whose name is s; None stands for the
      "Unsupported cache type" runtime error. */
  function FirstNamed(table: seq<GgmlType>, s: string): (r: Option<GgmlType>)
    ensures r.Some? ==> r.value in table && TypeName(r.value) == s
    ensures r.None? <==> forall t :: t in table ==> TypeName(t) != s
  {
    if table == [] then None
    else if TypeName(table[0]) == s then Some(table[0])
    else FirstNamed(table[1..], s)
  }

  /** The type found is the first entry of the table that carries the name. */
  lemma {:induction false} FirstNamedIsFirst(table: seq<GgmlType>, s: string)
    requires FirstNamed(table, s).Some?
    ensures exists i ::
      (0 <= i < |table| && table[i] == FirstNamed(table, s).value &&
       forall j :: 0 <= j < i ==> TypeName(table[j]) != s)
  {
    if TypeName(table[0]) != s {
      FirstNamedIsFirst(table[1..], s);
      var i :| 0 <= i < |table[1..]| && table[1..][i] == FirstNamed(table[1..], s).value &&
        forall j :: 0 <= j < i ==> TypeName(table[1..][j]) != s;
      assert table[i + 1] == FirstNamed(table, s).value;
      assert forall j :: 0 <= j < i + 1 ==> TypeName(table[j]) != s by {
        forall j | 0 <= j < i + 1 ensures TypeName(table[j]) != s {
          if j > 0 {
            assert table[j] == table[1..][j - 1];
          }
        }
      }
    } else {
      assert table[0] == FirstNamed(table, s).value;
    }
  }

  /** No two types share a name, so a name found in the table names exactly one type. */
  lemma TypeNameInjective(t1: GgmlType, t2: GgmlType)
    ensures TypeName(t1) == TypeName(t2) ==> t1 == t2
  {
  }

  /** Looking up the name of a supported type yields that type. */
  lemma LookupOfNameRoundTrip(t: GgmlType)
    requires t in KvCacheTypes
    ensures FirstNamed(KvCacheTypes, TypeName(t)) == Some(t)
  {
    var r := FirstNamed(KvCacheTypes, TypeName(t));
    TypeNameInjective(r.value, t);
  }

  /** kv_cache_type_from_str: walks the table of supported types in order and returns
      the first one whose name equals s, or None for the runtime error thrown when
      none does. */
  method KvCacheTypeFromStr(s: string) returns (r: Option<GgmlType>)
    ensures r == FirstNamed(KvCacheTypes, s)
  {
    r := FindNamed(KvCacheTypes, s);
  }

  /** The loop of kv_cache_type_from_str over a table of types. */
  method FindNamed(table: seq<GgmlType>, s: string) returns (r: Option<GgmlType>)
    ensures r == FirstNamed(table, s)
  {
    var i := 0;
    while i < |table|
      invariant 0 <= i <= |table|
      invariant FirstNamed(table, s) == FirstNamed(table[i..], s)
    {
      if TypeName(table[i]) == s {
        return Some(table[i]);
      }
      assert table[i..][1..] == table[i + 1..];
      i := i + 1;
    }
    return None;
  }

  /** Every type name is at most six characters long. */
  lemma TypeNameShort(t: GgmlType)
    ensures |TypeName(t)| <= 6
  {
  }

  /** The names used by the core API tests: "f16" and "f32" resolve, "invalid_type"
      is rejected. */
  lemma KnownNames()
    ensures FirstNamed(KvCacheTypes, "f16") == Some(F16)
    ensures FirstNamed(KvCacheTypes, "f32") == Some(F32)
  {
    LookupOfNameRoundTrip(F16);
    LookupOfNameRoundTrip(F32);
  }

  lemma UnknownName()
    ensures FirstNamed(KvCacheTypes, "invalid_type") == None
  {
    forall t | t in KvCacheTypes ensures TypeName(t) != "invalid_type" {
      TypeNameShort(t);
    }
  }

  /** A name the tensor library knows but the KV cache does not support is rejected. */
  lemma UnsupportedName()
    ensures FirstNamed(KvCacheTypes, TypeName(Q4_K)) == None
  {
    forall t | t in KvCacheTypes ensures TypeName(t) != TypeName(Q4_K) {
      TypeNameInjective(t, Q4_K);
    }
  }
}
