# QML/D-Bus bridge generator, modelled in Dafny

`make_qml_dbus_cpp.py` generates `qml_dbus.h` and `qml_dbus.cc` for the SDL
HMI. These files are the C++ layer between D-Bus and the QML front end.
This project models the generator's class `Impl`, which has three layers.

1. **Resolvers and signature builders** (modules `Resolvers`, `Signatures`).
   - `qt_param_type` and `from_variant_func_name` are modelled as recursive functions over a `Param` descriptor.
   - `make_method_signature`, `make_signal_signature`, `make_qml_signal_signature` and `glue_strings` are modelled as loops that accumulate a string or list, each proved equal to a declarative definition.
2. **Run-time behaviour of the emitted C++** (modules `Codec`, `Bridge`, `Slot`).
   - A `QVariant` is a `Variant` and a typed C++ value is a `Value`.
   - The per-struct `ValueToVariant` / `VariantToValue` / `GetArgFromMap`, the generated call bridge and the generated notification slot are methods with the same early-return structure as the C++ the generator writes.
   - `Encode` / `Decode` give the meaning of the conversions those methods call.
3. **Emitters** (modules `Output`, `StructEmit`, `AdaptorEmit`, `ApiAdaptors`).
   - The `out` file object is the class `Output.Stream`, whose `text` field is the sequence of strings written so far.
   - Every `write_*` / `make_*` emitter is a method that writes to it line by line, with the source's own loops.
   - Each emitter is proved to write exactly a specification function of its inputs.
   - The emitted text's properties are lemmas about those functions: four metatype declarations and registrations per struct, empty interfaces skipped everywhere, no trailing comma in the initializer list, and bridge-line order.

The parsed XML is an input.
- The descriptors `make_param_desc` would build are given directly.
- Methods and notifications of an interface are given in document order.
- `self.structs` is a map from key to fields (`StructTable`), and for the emitters an ordered list of `StructDecl`. `Descriptors.ListsTable` ties the two: the list holds every entry of the map exactly once.
- `self.enums` is a set of keys.
- `self.interface_path` is the `path` parameter.

Module `Text` holds the string helpers.
- `Join`, `Concat` and `Split`.
- `EscapeQuotes`, which is `str.replace('"', '\\"')`.
- `LowerFirst`, which is `s[:1].lower() + s[1:]`.

Module `Wrappers` holds `Option`.

The source lets an optional array of `X` resolve to `OptionalArgument<QList<X> > `. Each wrapping step adds exactly one `"> "`, so the text ends in a single `"> "` and not in `"> > "`. `Resolvers.OptionalArrayComposition` states that composition.

## Model

All source cells refer to `src/components/dbus/codegen/make_qml_dbus_cpp.py`.

| member | source | states |
|---|---|---|
| Resolvers.QtParamTypeWraps | src/components/dbus/codegen/make_qml_dbus_cpp.py:142-161 | the C++ type of every descriptor is its base type wrapped in `OptionalArgument<…> ` first (if not mandatory) and then in `QList<…> ` (if an array): the fixed peel order |
| Resolvers.OptionalArrayComposition | src/components/dbus/codegen/make_qml_dbus_cpp.py:143-150 | an optional array is `OptionalArgument<` + `QList<X> ` + `> `, and each step is the one-step wrap of the next inner copy of the descriptor |
| Resolvers.QtParamTypeBaseCases | src/components/dbus/codegen/make_qml_dbus_cpp.py:151-161 | Integer or any enum gives `int` (checked before struct), String `QString`, Boolean `bool`, Float `double`, a struct `fulltype[0]_fulltype[1]`, anything else `xxx` |
| Resolvers.QtParamTypeUnwraps | src/components/dbus/codegen/make_qml_dbus_cpp.py:142-161 | the type text determines the modifiers and base type: `UnwrapType` inverts the resolver when struct keys contain no `<` |
| Resolvers.UnwrapWrap | src/components/dbus/codegen/make_qml_dbus_cpp.py:146-150 | stripping the wrappers off a wrapped base type gives back the modifier list and the base type |
| Resolvers.FromVariantFuncName | src/components/dbus/codegen/make_qml_dbus_cpp.py:164-187 | succeeds exactly when the base name resolves, and then equals the `opt_`/`arr_` prefix of the descriptor's modifiers (same peel order as the type) + base name + `_from_variant` |
| Resolvers.FromVariantBaseCases | src/components/dbus/codegen/make_qml_dbus_cpp.py:175-187 | a primitive name is kept verbatim, a struct key becomes `iface_name`, an enum key gives `Integer`, and a key in neither table is a failure (the tuple-plus-string `TypeError`) |
| Resolvers.FromVariantSuffix | src/components/dbus/codegen/make_qml_dbus_cpp.py:187 | every successful routine name ends in `_from_variant` |
| Resolvers.ResolveUnqualified | src/components/dbus/codegen/make_qml_dbus_cpp.py:178-182 | an undotted type name refers to `(interface, name)` |
| Resolvers.ResolveQualified | src/components/dbus/codegen/make_qml_dbus_cpp.py:178-180 | a dotted name `A.B` refers to `(A, B)` |
| Resolvers.NamingLockstep | src/components/dbus/codegen/make_qml_dbus_cpp.py:142-187 | the routine name's prefix is determined by the modifiers read back from the C++ type text |
| Signatures.MakeMethodSignature | src/components/dbus/codegen/make_qml_dbus_cpp.py:190-218 | the built string is the return type, ` `, the optional `IfaceAdaptor::`, the name and the `", "`-join of all parameter texts in parentheses |
| Signatures.MethodParamShape | src/components/dbus/codegen/make_qml_dbus_cpp.py:202-216 | `len(in) + max(0, len(out) - 1)` parameters: `T name_in` per request parameter in order, then `T& name_out` per response parameter after the first |
| Signatures.SignatureAssembly | src/components/dbus/codegen/make_qml_dbus_cpp.py:207-216 | two separated loops, with one `", "` between them when both are non-empty, write exactly the join of the concatenated item lists |
| Signatures.SepFoldJoin | src/components/dbus/codegen/make_qml_dbus_cpp.py:203-207 | a loop that appends `", "` after every item but the last writes the join of its items |
| Signatures.MakeSignalSignature | src/components/dbus/codegen/make_qml_dbus_cpp.py:221-235 | the optional `void `, the name and the `", "`-join of `T name` per parameter in parentheses |
| Signatures.MakeQmlSignalSignature | src/components/dbus/codegen/make_qml_dbus_cpp.py:238-260 | `void ` unless short, the optional class prefix, the name, and the join of the QML types (with names unless short) |
| Signatures.QmlNativeTypeIsQtType | src/components/dbus/codegen/make_qml_dbus_cpp.py:250-255 | where the QML type is not `QVariant`, it equals the resolver's C++ type, and the parameter is a mandatory non-array basic non-struct |
| Signatures.GlueStrings | src/components/dbus/codegen/make_qml_dbus_cpp.py:264-272 | fails (the `str[-1]` `IndexError`) exactly when some piece is empty; otherwise returns the chunks of the declarative `Glued` |
| Signatures.GluedChunksEndInGt | src/components/dbus/codegen/make_qml_dbus_cpp.py:269-271 | every output chunk ends with `>` |
| Signatures.GluedChunksConcat | src/components/dbus/codegen/make_qml_dbus_cpp.py:264-272 | the chunks concatenate to the pieces up to the last `>`-terminated one: the trailing pieces are dropped |
| Signatures.GluedPending | src/components/dbus/codegen/make_qml_dbus_cpp.py:266-271 | the pending text is the concatenation of the pieces after the last `>`-terminated one, none of which ends in `>` |
| Signatures.GluedIsPrefix | src/components/dbus/codegen/make_qml_dbus_cpp.py:264-272 | the concatenated output is a prefix of the concatenated input |
| Codec.EncodeFieldsKeys | src/components/dbus/codegen/make_qml_dbus_cpp.py:99-103 | the map `ValueToVariant` builds has exactly the field names as keys |
| Codec.EncodeFieldsLookup | src/components/dbus/codegen/make_qml_dbus_cpp.py:101-102 | with distinct names, each field sits under its own name holding its own encoding |
| Codec.DecodeFieldsAll | src/components/dbus/codegen/make_qml_dbus_cpp.py:116-118 | a struct's fields decode exactly when each field does, and field `i` of the result is field `i`'s decoding |
| Codec.EncodeNotNull | src/components/dbus/codegen/make_qml_dbus_cpp.py:99-111 | a well-typed mandatory value never travels as `Null`, so an absent optional can be told apart |
| Codec.RoundTrip | src/components/dbus/codegen/make_qml_dbus_cpp.py:99-138 | with distinct field names in every struct, decoding the encoding of a well-typed value gives the value back |
| Codec.ListRoundTrip | src/components/dbus/codegen/make_qml_dbus_cpp.py:105-109 | decoding an encoded list prefix gives the prefix back |
| Codec.StructRoundTrip | src/components/dbus/codegen/make_qml_dbus_cpp.py:99-119 | decoding an encoded struct gives its fields back |
| Codec.FieldsRoundTrip | src/components/dbus/codegen/make_qml_dbus_cpp.py:101-117 | taking the fields out of the encoded map in order recovers every field |
| Codec.DuplicateNameLosesField | src/components/dbus/codegen/make_qml_dbus_cpp.py:101-102 | two fields with the same name: the second insertion replaces the first, so the first field comes back with the second's content |
| Codec.MissingFieldFails | src/components/dbus/codegen/make_qml_dbus_cpp.py:116-117 | a map lacking one of the struct's fields does not decode |
| Codec.PutFields | src/components/dbus/codegen/make_qml_dbus_cpp.py:100-102 | the field loop of `ValueToVariant` builds the map of `EncodeFields`, whose keys are exactly the field names |
| Codec.StructToVariant | src/components/dbus/codegen/make_qml_dbus_cpp.py:99-104 | the result is a map with exactly the field names as keys; with distinct names, each field holds its own encoding |
| Codec.StructListToVariant | src/components/dbus/codegen/make_qml_dbus_cpp.py:105-109 | one struct map per element, in order |
| Codec.GetFields | src/components/dbus/codegen/make_qml_dbus_cpp.py:116-118 | succeeds exactly when every field decodes, then holds them all; on failure it stopped at a field `k`, with earlier fields decoded and later ones untouched |
| Codec.VariantToStruct | src/components/dbus/codegen/make_qml_dbus_cpp.py:113-119 | a non-map is rejected, leaving the struct unchanged; otherwise succeeds exactly when the struct decodes, stopping at the first failing field |
| Codec.GetStructFromMap | src/components/dbus/codegen/make_qml_dbus_cpp.py:130-138 | fails, leaving the struct unchanged, on a missing key or a non-map value; otherwise as `VariantToStruct` on the inner map |
| Codec.DecodeStructsFailStays | src/components/dbus/codegen/make_qml_dbus_cpp.py:123-126 | once a list element fails to decode, every longer prefix fails too |
| Codec.VariantToStructList | src/components/dbus/codegen/make_qml_dbus_cpp.py:120-129 | a non-list is rejected; elements are decoded and appended in order; the first failure stops the loop, with the earlier appends left in place |
| Bridge.Secondary | src/components/dbus/codegen/make_qml_dbus_cpp.py:341-345 | the out-parameters after the first response parameter |
| Bridge.CallBridge | src/components/dbus/codegen/make_qml_dbus_cpp.py:318-351 | sends the request map; a failed invoke or a non-map reply raises and returns at once, with out-parameters untouched; secondary out-parameters are extracted fail-fast, later ones untouched; the early returns leave `ret` as declared, never assigned (indeterminate for a scalar type or a struct with scalar members); the return value is extracted last, into `ret` itself, and its failure only raises, returning `ret` as the failed extraction left it |
| Bridge.DecodeFieldsFrom | src/components/dbus/codegen/make_qml_dbus_cpp.py:341-345 | in-order extraction succeeds with `vs` when each field decodes to its element of `vs` |
| Bridge.ReplyRoundTrip | src/components/dbus/codegen/make_qml_dbus_cpp.py:340-349 | a reply that encodes well-typed response values under distinct names fills every secondary out-parameter and yields the first value as the return value |
| Slot.DecodeLocal | src/components/dbus/codegen/make_qml_dbus_cpp.py:357-370 | the decoder is called exactly for a mandatory array or non-basic parameter, or a present optional one; failure means the parameter needed decoding and did not decode |
| Slot.DecodeNext | src/components/dbus/codegen/make_qml_dbus_cpp.py:357-370 | one parameter's code: either its local is added, or it is the first parameter whose local does not decode; its decoder call is recorded |
| Slot.DecodeLocals | src/components/dbus/codegen/make_qml_dbus_cpp.py:357-370 | completes exactly when every parameter that declares a local decodes; the filled locals are those decodings; the decoder calls are listed in order; on failure it stopped at the first parameter that does not decode, and the decoders called are exactly those up to it |
| Slot.EmitArgs | src/components/dbus/codegen/make_qml_dbus_cpp.py:371-381 | the emit passes the decoded local for an array, optional or non-basic parameter, and the raw argument otherwise |
| Slot.NotificationSlot | src/components/dbus/codegen/make_qml_dbus_cpp.py:352-382 | emits exactly when every decoded parameter decodes, and then emits one argument per parameter: the local or the raw value; otherwise it returned at the first parameter that does not decode, after calling exactly the decoders up to it |
| Slot.LocalsMatchQmlSignature | src/components/dbus/codegen/make_qml_dbus_cpp.py:250-255 | for a well-formed descriptor, the slot uses a local exactly when `make_qml_signal_signature` chose `QVariant`, and declares one exactly when it emits one |
| Output.Stream.Write | src/components/dbus/codegen/make_qml_dbus_cpp.py:274 | `out.write(s)` appends `s` and nothing else |
| Output.Stream.WriteLines | src/components/dbus/codegen/make_qml_dbus_cpp.py:283-287 | consecutive writes append their strings in order |
| StructEmit.WriteStructMetatypeDeclaration | src/components/dbus/codegen/make_qml_dbus_cpp.py:69-74 | writes exactly the struct's four `Q_DECLARE_METATYPE` lines |
| StructEmit.MakeDbusMetatypeDeclarations | src/components/dbus/codegen/make_qml_dbus_cpp.py:48-50 | writes the metatype declarations of every struct, in list order |
| StructEmit.MetatypeLine | src/components/dbus/codegen/make_qml_dbus_cpp.py:71-74 | line `j` declares the struct wrapped as plain, `OptionalArgument`, `QList`, `OptionalArgument<QList>`, each the resolver's wrapping |
| StructEmit.MetatypeDeclarationsInOrder | src/components/dbus/codegen/make_qml_dbus_cpp.py:48-50 | exactly four metatype declarations per struct, in wrapping order, struct after struct |
| StructEmit.WriteStructDeclaration | src/components/dbus/codegen/make_qml_dbus_cpp.py:53-66 | writes exactly the struct, its members and its eight prototypes |
| StructEmit.WritePrototypes | src/components/dbus/codegen/make_qml_dbus_cpp.py:58-66 | writes the closing brace and the eight prototypes, each naming the struct |
| StructEmit.StructDeclarationShape | src/components/dbus/codegen/make_qml_dbus_cpp.py:53-66 | a declaration is the struct line, one member per field and nine closing lines, the last the list `VariantToValue` prototype |
| StructEmit.StructMembersTyped | src/components/dbus/codegen/make_qml_dbus_cpp.py:56-57 | member `i` is declared with the resolver's type for field `i` |
| StructEmit.MakeDbusTypeDeclarations | src/components/dbus/codegen/make_qml_dbus_cpp.py:43-45 | writes every struct's declaration, in list order |
| StructEmit.WriteStreamingOperators | src/components/dbus/codegen/make_qml_dbus_cpp.py:84-98 | writes `operator <<` and `operator >>`, each with one streaming line per field in order |
| StructEmit.WriteEncoders | src/components/dbus/codegen/make_qml_dbus_cpp.py:99-112 | writes both `ValueToVariant`s and `PutArgToMap`, with one `PutArgToMap` line per field |
| StructEmit.WriteEncodeList | src/components/dbus/codegen/make_qml_dbus_cpp.py:105-112 | writes the list `ValueToVariant` and `PutArgToMap`, naming the struct |
| StructEmit.WriteDecodeList | src/components/dbus/codegen/make_qml_dbus_cpp.py:122-131 | writes the list `VariantToValue`, decoding each element into a struct local |
| StructEmit.WriteDecoders | src/components/dbus/codegen/make_qml_dbus_cpp.py:113-138 | writes both `VariantToValue`s and `GetArgFromMap`, with one early-return `GetArgFromMap` line per field in each of the two field loops |
| StructEmit.WriteStructDefinition | src/components/dbus/codegen/make_qml_dbus_cpp.py:82-139 | writes exactly the struct's definition block |
| StructEmit.StructDefinitionLength | src/components/dbus/codegen/make_qml_dbus_cpp.py:82-139 | a definition is 45 fixed lines plus five per field: one in each loop |
| StructEmit.MakeDbusTypeDefinitions | src/components/dbus/codegen/make_qml_dbus_cpp.py:77-79 | writes every struct's definition, in list order |
| StructEmit.MakeDbusRegisterMetatypesDefinition | src/components/dbus/codegen/make_qml_dbus_cpp.py:405-413 | writes the header, four registrations per struct of the same list the other emitters walk, and the closing brace |
| StructEmit.MakeDbusRegisterMetatypesDeclaration | src/components/dbus/codegen/make_qml_dbus_cpp.py:401-402 | writes the one prototype line |
| StructEmit.RegistrationLine | src/components/dbus/codegen/make_qml_dbus_cpp.py:409-412 | registration `j` registers the struct under the resolver's `j`-th wrapping: plain, `OptionalArgument`, `QList`, `OptionalArgument<QList>` |
| StructEmit.RegistrationsInOrder | src/components/dbus/codegen/make_qml_dbus_cpp.py:405-413 | two lines plus four per struct; line `1 + 4i + j` is struct `i`'s `j`-th registration |
| StructEmit.MetatypeMatchesRegistration | src/components/dbus/codegen/make_qml_dbus_cpp.py:69-74 | metatype line `4i + j` and registration line `1 + 4i + j` name the same wrapped type of struct `i` |
| StructEmit.TableStructsRegistered | src/components/dbus/codegen/make_qml_dbus_cpp.py:405-413 | when the list is the table's entries, every struct of the table is declared as a metatype and registered under all four wrappings |
| StructEmit.StructParamTypeRegistered | src/components/dbus/codegen/make_qml_dbus_cpp.py:142-161 | when the list is the table's entries, every C++ type the resolver gives a parameter whose core is a struct of the table is registered |
| AdaptorEmit.NonEmptyMembers | src/components/dbus/codegen/make_qml_dbus_cpp.py:389 | an interface gets an adaptor exactly when it is listed and has a notification or a request/response pair |
| AdaptorEmit.NonEmptyAppend | src/components/dbus/codegen/make_qml_dbus_cpp.py:419-421 | the filter distributes over concatenation, so it keeps document order |
| AdaptorEmit.NonEmptySkips | src/components/dbus/codegen/make_qml_dbus_cpp.py:419-421 | removing an empty interface anywhere leaves the filtered list unchanged |
| AdaptorEmit.NonEmptyIdempotent | src/components/dbus/codegen/make_qml_dbus_cpp.py:419-421 | filtering twice is filtering once |
| AdaptorEmit.WriteMethodDecls | src/components/dbus/codegen/make_qml_dbus_cpp.py:288-290 | one public slot declaration per request/response pair, in order |
| AdaptorEmit.WriteSignalDecls | src/components/dbus/codegen/make_qml_dbus_cpp.py:292-294 | one signal declaration per notification, in order |
| AdaptorEmit.WriteQmlSlotDecls | src/components/dbus/codegen/make_qml_dbus_cpp.py:296-298 | one private `_qml` slot declaration per notification, in order |
| AdaptorEmit.WriteAdaptorDeclaration | src/components/dbus/codegen/make_qml_dbus_cpp.py:263-301 | returns false, with only the four header lines written, when `glue_strings` raises; otherwise writes the whole class declaration with the escaped glued introspection chunks |
| AdaptorEmit.WriteConnects | src/components/dbus/codegen/make_qml_dbus_cpp.py:310-316 | one `connect` per notification, from the lower-first QML signal to the `_qml` slot |
| AdaptorEmit.WriteDefinitionHead | src/components/dbus/codegen/make_qml_dbus_cpp.py:307-317 | writes the constructor and `SetApi` with its connects |
| AdaptorEmit.WriteBridge | src/components/dbus/codegen/make_qml_dbus_cpp.py:318-351 | writes exactly the bridge text of one request/response pair |
| AdaptorEmit.WriteLocal | src/components/dbus/codegen/make_qml_dbus_cpp.py:358-370 | writes a parameter's local declaration and decoding: none, 2 lines (mandatory) or 5 lines (optional, gated on presence) |
| AdaptorEmit.WriteEmitArgs | src/components/dbus/codegen/make_qml_dbus_cpp.py:372-380 | writes the emit names separated by `", "` |
| AdaptorEmit.WriteSlot | src/components/dbus/codegen/make_qml_dbus_cpp.py:352-382 | writes exactly the slot text of one notification |
| AdaptorEmit.WriteAdaptorDefinition | src/components/dbus/codegen/make_qml_dbus_cpp.py:304-382 | writes the head, then one bridge per pair and one slot per notification, in order |
| AdaptorEmit.MakeDbusAdaptorDeclarations | src/components/dbus/codegen/make_qml_dbus_cpp.py:385-390 | writes the declarations of the non-empty interfaces in order; `ok` is false and the run stops once a declaration raises |
| AdaptorEmit.DeclarationsStayFailed | src/components/dbus/codegen/make_qml_dbus_cpp.py:385-390 | after a declaration has raised, later interfaces add nothing |
| AdaptorEmit.MakeDbusAdaptorDefinitions | src/components/dbus/codegen/make_qml_dbus_cpp.py:393-398 | writes the definitions of exactly the non-empty interfaces, in order |
| AdaptorEmit.DeclarationsOfNonEmpty | src/components/dbus/codegen/make_qml_dbus_cpp.py:389 | the declarations depend only on the non-empty interfaces |
| AdaptorEmit.DeclarationsSkipEmpty | src/components/dbus/codegen/make_qml_dbus_cpp.py:389 | an empty interface anywhere gets no declaration: removing it changes nothing |
| AdaptorEmit.DefinitionsSkipEmpty | src/components/dbus/codegen/make_qml_dbus_cpp.py:397 | an empty interface anywhere gets no definition |
| AdaptorEmit.DeclarationsComplete | src/components/dbus/codegen/make_qml_dbus_cpp.py:279 | the declarations complete exactly when no non-empty interface has an empty introspection piece |
| AdaptorEmit.EmitUsesDeclaredLocals | src/components/dbus/codegen/make_qml_dbus_cpp.py:361-378 | the emit passes `p_<name>` exactly when the slot declared and decoded it, exactly when the QML signature carries `QVariant`; otherwise the plain name; the local has the resolver's type |
| AdaptorEmit.EmitText | src/components/dbus/codegen/make_qml_dbus_cpp.py:372-380 | the emit arguments are the `", "`-join of the emit names, with no trailing separator |
| AdaptorEmit.ConnectSignaturesAgree | src/components/dbus/codegen/make_qml_dbus_cpp.py:314-316 | the signal and slot a `connect` pairs have identical short signatures after the name |
| AdaptorEmit.BridgePacksInOrder | src/components/dbus/codegen/make_qml_dbus_cpp.py:332-334 | request parameter `k` is packed into `in_arg` on body line `k` |
| AdaptorEmit.BridgeExtractsInOrder | src/components/dbus/codegen/make_qml_dbus_cpp.py:341-345 | after the call, out-parameter `j ≥ 1` is extracted on line `j - 1`, returning `ret` at once on failure |
| AdaptorEmit.BridgeExtractsResultLast | src/components/dbus/codegen/make_qml_dbus_cpp.py:346-351 | the return value is extracted after all secondaries, its failure only raises, and `return ret;` follows |
| AdaptorEmit.BridgeWithoutResult | src/components/dbus/codegen/make_qml_dbus_cpp.py:323-339 | a bridge with no response declares no `ret` and returns bare on failure |
| ApiAdaptors.MakeApiAdaptorsClass | src/components/dbus/codegen/make_qml_dbus_cpp.py:416-443 | writes exactly the `ApiAdaptors` struct over the non-empty interfaces |
| ApiAdaptors.WriteInitializers | src/components/dbus/codegen/make_qml_dbus_cpp.py:426-430 | one initializer per interface, each followed by `,` unless last, and a line break |
| ApiAdaptors.ClassSkipsEmpty | src/components/dbus/codegen/make_qml_dbus_cpp.py:419-443 | an empty interface gets no member, initializer, `Init` or `SetApi` line |
| ApiAdaptors.ClassOfNonEmpty | src/components/dbus/codegen/make_qml_dbus_cpp.py:419-421 | the class depends only on the non-empty interfaces |
| ApiAdaptors.InitializerList | src/components/dbus/codegen/make_qml_dbus_cpp.py:426-430 | the initializer list is the entries joined by `,` and a line break, ending in a line break |
| ApiAdaptors.InitializerListNoTrailingComma | src/components/dbus/codegen/make_qml_dbus_cpp.py:426-430 | no comma trails the list: it ends in `)` and a line break |
| ApiAdaptors.MembersAreNonEmpty | src/components/dbus/codegen/make_qml_dbus_cpp.py:422-424 | the member section has one line per non-empty interface, in order, and only those |
| Text.EscapeQuotes | src/components/dbus/codegen/make_qml_dbus_cpp.py:281 | the escaped text is one character longer per `"` |
| Text.UnescapeEscape | src/components/dbus/codegen/make_qml_dbus_cpp.py:280-282 | the string literal written for an introspection chunk without backslashes reads back as the chunk itself, `\"` as `"` |
| Text.BackslashEscapesClosingQuote | src/components/dbus/codegen/make_qml_dbus_cpp.py:281-282 | a chunk ending in a backslash is written as `"a\"`, whose closing quote is escaped |
| Text.LowerFirst | src/components/dbus/codegen/make_qml_dbus_cpp.py:312 | same length, only the first character may change; an ASCII capital becomes its lower-case letter, and any other first character is kept |

## Left out

- Process wiring (lines 447-553) is not modelled: argument parsing, `ElementTree.parse`, opening the two files and the license and include boilerplate. It is I/O only.
- The `FordXmlParser` base class is not part of this model. Its pieces are inputs instead:
  - `make_param_desc` is replaced by given `Param` descriptors;
  - `find_notifications` and `find_request_response_pairs` by sequences;
  - `self.structs` and `self.enums` by a map and a set;
  - `self.interface_path` by the `path` parameter.
- The XML `name` attribute of a parameter is assumed equal to its descriptor's `name`. The emitter reads it in some places (lines 333, 343) and the descriptor in others (line 349).
- `create_introspection_iface_el` and `ElementTree.tostringlist` are not modelled. An interface carries its introspection pieces as an abstract `seq<string>`.
- Qt run-time semantics are not modelled:
  - `QMetaObject::invokeMethod` is a function parameter `host` that returns a failure or a variant. The blocking queued connection is not modelled.
  - `QDBusArgument` streaming (lines 84-98) is emitted as text only.
  - The `connect` machinery is not modelled.
- The runtime library's `GetArgFromMap`, `PutArgToMap` and `VariantToValue` overloads for basic, optional and list types are not part of this model. They are modelled as follows:
  - a scalar must match its kind;
  - an optional travels as `Null` when absent and as its value when present;
  - a list travels as a list of encodings.
- The iteration order of `self.structs` (lines 44, 49, 78, 407) is a Python 2 dictionary order. The four emitters take it as one given sequence of `StructDecl`. `ListsTable` states that this sequence lists every entry of the table once.
- Python 2 syntax quirks (tuple-unpacking parameters, `<>`) and the C++ `const` mismatch between the prototype at line 62 and the definition at line 99 are not modelled. Neither is behaviour.
- `Float` values are Dafny `real`s. Floating-point rounding is not modelled.
- Text.UnescapeEscape: the round trip needs a chunk without backslashes, because line 281 escapes quotes only. A backslash in a chunk is written unescaped, and C then reads it as the start of an escape. Text.BackslashEscapesClosingQuote shows a chunk whose literal does not end at its closing quote. The introspection chunks are not modelled, so whether they can hold a backslash is left open.
- Text.LowerFirst: lower-cases ASCII letters only, not other Unicode letters, since there is no Unicode case mapping.
- Codec.GetFields: on failure, the field that failed is left unconstrained, because the runtime overload may have partly written it. Codec.VariantToStruct and Codec.GetStructFromMap inherit this.
- Bridge.CallBridge: when the return value's extraction fails, the bridge returns `ret` as that `GetArgFromMap` left it. This may be partly written: a struct's earlier fields, or a list's earlier elements. The model takes that value as the parameter `leftover` and returns it as `Leftover(leftover)`. It does not compute it from the reply, because the runtime library's overloads are not part of this model.
- AdaptorEmit.WriteAdaptorDeclaration: an exception in `glue_strings` is the result `false`, with the lines written before it left in place. The model does not propagate an exception through the callers.
- Codec.RoundTrip: requires distinct field names. Codec.DuplicateNameLosesField shows that the round trip fails without them.
- `src/components/QtHMI/jsondbus/jsondbus_plugin.cpp` is not modelled. It is a one-line `qmlRegisterType` wrapper with no logic.
