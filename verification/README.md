# Work-package payload parser, modelled in Dafny

This project models `API::V3::WorkPackages::ParseParamsService`. That is the part of
OpenProject's API v3 that turns an inbound work-package JSON payload into an
attribute hash.

The difficulty is a dependency cycle. Which custom fields a payload may carry
depends on the work package's project and type. The payload itself may change the
project or the type. The service handles this in two passes:

1. It decodes the body with the custom fields of the caller's default project and type.
2. It recomputes the field list. A truthy `project_id` or `type_id` in the decoded
   hash replaces the default, looked up by id.
3. Only when that list differs (compared as an ordered list) does it decode the
   original body again.

Every decode result is then cleaned up: the representer's internal
`available_custom_fields` attribute is removed, and `lock_version` is always present.

The field lists are compared in order with `!=` (parse_params_service.rb:61).
`ReorderedFieldsDecodeTwice` shows that a permuted list still causes a second decode.

## Files

- `wrappers.dfy`: `Option` (Ruby `nil` for a missing record) and `Result` (a value or
  a raised error).
- `ruby_hash.dfy`: module `RubyHash`. It holds JSON-like values, Ruby truthiness,
  `hash[key]`, `Hash#except` and ActiveSupport's `Hash#reverse_merge`. A Ruby `Hash`
  is a Dafny `map`.
- `parse_params_service.dfy`: module `ParseParamsService`. It holds the service
  itself: `Call`, `ParseAttributes`, `ParseAttributesWithRepresenter` (with its
  clean-up step `Normalize`) and `CustomFieldsFor`.
- `parse_params_properties.dfy`: module `ParseParamsProperties`. It holds what the
  service promises over all inputs.

## Collaborators

The collaborators are function values held by the `Service` datatype:

- `decode(user, body, fields)`: the payload representer built for `fields`, i.e.
  `from_hash(Hash(body)).to_h`. It returns the attribute hash or a raised error.
- `availableFields(project, type)`: the custom fields available for that project and type.
- `findProject(id)` and `findType(id)`: `find_by`, where an unknown id gives `None`.

`currentUser` is the user given to the service's constructor. The service passes
it on to the representer.

Every collaborator call is recorded as an `Effect`. Because of this trace, the
number of decodes, the field list each decode used and the absence of lookups
can all be stated and proved.

## Model

| member | source | states |
|---|---|---|
| `RubyHash.Truthy` | lib/api/v3/work_packages/parse_params_service.rb:38 | only `nil` and `false` are falsy; `true`, every number (0 included), string and collection is truthy |
| `RubyHash.Get` | lib/api/v3/work_packages/parse_params_service.rb:81-82 | `hash[key]` is the stored value when the key is present and `nil` when it is absent |
| `RubyHash.Except` | lib/api/v3/work_packages/parse_params_service.rb:76 | `except` drops exactly the given key and keeps every other entry with its value |
| `RubyHash.ReverseMerge` | lib/api/v3/work_packages/parse_params_service.rb:77 | `reverse_merge` has the union of keys; an entry already in the hash wins over the default |
| `ParseParamsService.CustomFieldsFor` | lib/api/v3/work_packages/parse_params_service.rb:80-85 | a truthy `project_id`/`type_id` replaces the default by a lookup (and that lookup is made); nil, false or absent keeps the default with no lookup; the result is the available fields of the resolved pair; the calls are exactly one lookup per truthy id followed by one fields lookup, with no decode |
| `ParseParamsService.Normalize` | lib/api/v3/work_packages/parse_params_service.rb:76-77 | the result never has `available_custom_fields`, always has `lock_version` (the decoder's value, else nil), and every other entry is the decoder's, unchanged |
| `ParseParamsService.ParseAttributesWithRepresenter` | lib/api/v3/work_packages/parse_params_service.rb:68-78 | exactly one decode of the given body with the given fields; a raised error passes through unchanged; a success is the decoder output with only the clean-up applied |
| `ParseParamsService.ParseAttributes` | lib/api/v3/work_packages/parse_params_service.rb:47-66 | the first collaborator call resolves the defaults' fields, the second decodes the body with them; a success has `lock_version` and lacks `available_custom_fields` |
| `ParseParamsService.Call` | lib/api/v3/work_packages/parse_params_service.rb:37-41 | a nil/false body gives `{}` with no collaborator call; any other body makes calls, and a successful result has `lock_version` and lacks `available_custom_fields` |
| `ParseParamsProperties.FirstPassUsesDefaults` | lib/api/v3/work_packages/parse_params_service.rb:55-57 | pass 1 resolves the fields of the caller's defaults (no project/type lookup, since the hash given is empty) and then decodes the body with them |
| `ParseParamsProperties.FirstPassFailurePropagates` | lib/api/v3/work_packages/parse_params_service.rb:57-59 | an error raised by the first decode is the result; fields are not recomputed and no second decode happens |
| `ParseParamsProperties.UnchangedFieldsDecodeOnce` | lib/api/v3/work_packages/parse_params_service.rb:59-65 | when the recomputed list equals the initial one, the result is the pass-1 hash and exactly one decode occurred |
| `ParseParamsProperties.ChangedFieldsDecodeTwice` | lib/api/v3/work_packages/parse_params_service.rb:59-65 | when the lists differ, the original request body is decoded a second time with the new list, and that decode is the result; exactly these two decodes occur |
| `ParseParamsProperties.ReorderedFieldsDecodeTwice` | lib/api/v3/work_packages/parse_params_service.rb:61 | for a service whose default fields are `[1, 2]` and whose payload type has `[2, 1]`, the body is decoded twice: the comparison is in order, not by content |
| `ParseParamsProperties.TypicalRequestDecodesOnce` | lib/api/v3/work_packages/parse_params_service.rb:55-65 | when the pass-1 hash has no truthy `project_id` or `type_id`, the result is the pass-1 hash and there is exactly one decode |
| `ParseParamsProperties.AtMostTwoDecodes` | lib/api/v3/work_packages/parse_params_service.rb:55-65 | for every input there are at most two decodes, and each one reads the original request body, never the pass-1 output |
| `ParseParamsProperties.ResultIsLastDecodeNormalized` | lib/api/v3/work_packages/parse_params_service.rb:57-78 | a successful result is exactly the cleaned-up output of the last decode made, so nothing besides `available_custom_fields` and `lock_version` differs from the decoder's entries |
| `ParseParamsProperties.SecondPassIsNotRechecked` | lib/api/v3/work_packages/parse_params_service.rb:59-65 | for a decoder that reports `type_id` 7 in pass 1 and 8 in pass 2, the result (type 8) is decoded with type 7's fields `[1]` while its own type selects `[2]`: pass 2's output is not checked again |
| `ParseParamsProperties.CustomFieldsForDependsOnIds` | lib/api/v3/work_packages/parse_params_service.rb:80-84 | two hashes with the same `project_id` and `type_id` give the same field list and the same lookups |
| `ParseParamsProperties.ResultFieldsAreFinal` | lib/api/v3/work_packages/parse_params_service.rb:48-65 | if the decoder reads `project_id`/`type_id` the same way whatever the custom fields, the fields used for the returned hash are exactly those its own project and type select |
| `ParseParamsProperties.CallDeterministic` | lib/api/v3/work_packages/parse_params_service.rb:37-85 | two services whose collaborators answer alike give equal results and equal call traces |

## Left out

- The attachment representer (`lib/api/v3/attachments/attachment_representer.rb`) is
  not modelled. It is hypermedia rendering: links, embedding, caching and permission
  checks, all configured through a representer DSL whose behaviour lives in library code.
- The work-package payload representer, including its attachments setter, is not
  modelled. It is the opaque `decode` collaborator. Its link parsing and `Attachment.find`
  are library and database code, not shown here.
- `Project.find_by`, `Type.find_by` and `WorkPackage::AvailableCustomFields.for` are
  database queries. They are function parameters, assumed pure.
- Ruby coercions are not modelled separately: `Hash(request_body)` raising on a
  non-hash, and `OpenStruct`'s dynamic attributes. Both belong to `decode`, which may
  return a failure for any input.
- Key order is not modelled. `reverse_merge` puts `lock_version` first in Ruby's
  ordered hash. Ruby compares hashes without regard to order, so the model uses maps.
- Time, logging and concurrency: the service has none of them.
- `ResultFieldsAreFinal` assumes the decoder reads `project_id`/`type_id` the same
  way for every field list. Without that assumption, the second decode could report
  a different project or type, and the service does not check for this;
  `SecondPassIsNotRechecked` proves this for a concrete service.
