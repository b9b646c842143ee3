# USB-Stack CDC-ACM layer and two example applications, in Dafny

This project models part of a USB device stack for 8-bit PIC microcontrollers:

- **The core header `USB_Stack/USB/usb.h`**, in module `Usb` (`usb.dfy`). It covers:
  - the device-state and control-stage codes;
  - the EP0 buffer base addresses for PIC18 (computed) and PIC16 (hard-coded tables), for each ping-pong policy;
  - the BD entries the request-error macro stalls;
  - the bit layouts of the endpoint-status record and of USTAT;
  - `EP_STAT_SIZE`.
- **The CDC-ACM class layer `USB_Stack/USB/usb_cdc_acm.c`**, in module `UsbCdcAcm` (`cdc_acm.dfy`). The layer's globals are the fields of class `CdcAcm`:
  - the line-coding records;
  - the wait, notification and byte-count variables;
  - the three endpoint buffers (arrays);
  - the layer's three BD entries and endpoint-status records (maps keyed by endpoint direction).

  The methods model the arm functions, `cdc_class_request`, `cdc_init`, `cdc_clear_ep_toggle`, `cdc_tasks`, `cdc_out_control_tasks` and `cdc_notification_tasks`.
  - What `cdc_class_request` does for a setup packet is also given as a pure function, `ClassRequestSpec`, with lemmas about it. The method is proved against that function.
  - Calls the layer makes into the core stack (`usb.c`) and into the application's hooks are recorded with their arguments in `log`.
- **The CDC serial example `USB_Stack/Examples/CDC_Examples/CDC_Serial_Example.X/main.c`**, in module `CdcSerialExample` (`cdc_serial_example.dfy`). Class `SerialApp` models:
  - `serial_print_string`, `serial_echo`, `send`, `receive`;
  - the `cdc_data_out`/`cdc_data_in` hooks and their two flags.

  The packets `serial_print_string` sends are specified by the function `Packets`. Lemmas about `Packets` prove:
  - the packets put back together are the string;
  - every packet is full except the last;
  - no packet is empty;
  - the packet count.
- **The RubberDucky HID example `USB_Stack/Examples/HID_Examples/HID_Keyboard_Examples/HID_RubberDucky_Example.X/main.c`**, in module `RubberDuckyExample` (`rubber_ducky_example.dfy`). Class `KeyboardApp` models `send_key`, `send_consumer`, `print_keys` and `hid_out`.
  - What `print_keys` types is specified as a list of key events (`PrintKeysEvents`), with lemmas about its presses, releases and length.
- **Module `CString`** (`c_string.dfy`) gives the text of a NUL-terminated byte string: the bytes that serial_print_string's `while(*string)` and print_keys' `while(str[i])` walk over.

Configuration is a parameter rather than preprocessor selection:

- The CDC layer takes a `CdcConfig`:
  - endpoint and interface numbers;
  - COM and data endpoint sizes;
  - buffer addresses;
  - starting baud, stop bits and data bits (the starting parity is always none);
  - whether `USE_GET_LINE_CODING`, `USE_SET_LINE_CODING` and `USE_SET_CONTROL_LINE_STATE` are defined.
- The header lemmas and `hid_out` take the ping-pong policy as a `PingPongMode`.

Request codes follow section 6.2 of the USB CDC 1.2 specification and table 13 of its PSTN subclass:

| request | code |
|---|---|
| SEND_ENCAPSULATED_COMMAND | 0x00 |
| GET_ENCAPSULATED_RESPONSE | 0x01 |
| SET_LINE_CODING | 0x20 |
| GET_LINE_CODING | 0x21 |
| SET_CONTROL_LINE_STATE | 0x22 |

## Model

| member | source | states |
|---|---|---|
| Usb.StateCode | USB_Stack/USB/usb.h:42-48 | Every device state's code is in 0..6. |
| Usb.DecodeState | USB_Stack/USB/usb.h:42-48 | A code decodes to a state exactly when it is at most 6, and the state decoded has that code. |
| Usb.StateCodeInjective | USB_Stack/USB/usb.h:42-48 | Two states have the same code only if they are the same state, and decoding inverts encoding. |
| Usb.BelowConfiguredMeansNotConfigured | USB_Stack/USB/usb.h:42-48 | `code < STATE_CONFIGURED` holds exactly for the states other than CONFIGURED, SUSPENDED included. |
| Usb.StageCode | USB_Stack/USB/usb.h:57-61 | Every control-stage code is in 0..4. |
| Usb.DecodeStage | USB_Stack/USB/usb.h:57-61 | A code decodes to a stage exactly when it is below 5, and the stage decoded has that code. |
| Usb.StageCodesDistinct | USB_Stack/USB/usb.h:57-61 | The five stage codes are pairwise distinct, and decoding inverts encoding. |
| Usb.DirBit | USB_Stack/USB/usb.h:270 | The direction bit is 1 exactly for IN. |
| Usb.RequestErrorStalls | USB_Stack/USB/usb.h:215-220 | Only EP0 IN entries are stalled, each once. They are exactly the EP0 IN buffers the ping-pong policy defines: both the even and the odd under PINGPONG_ALL_EP, the single BD0_IN otherwise. |
| Usb.Ep0Buffers | USB_Stack/USB/usb.h:159-181 | Each policy defines two to four EP0 buffers, OUT first. |
| Usb.Pic18Ep0Base | USB_Stack/USB/usb.h:159-181 | A PIC18 EP0 base address exists exactly for the buffers the policy lists, and none lies below the start of endpoint RAM. |
| Usb.Pic18Ep0Consecutive | USB_Stack/USB/usb.h:159-181 | A PIC18 EP0 base-address macro exists exactly for the buffers the policy lists. The k-th listed buffer sits at the start address plus k times EP0_SIZE. |
| Usb.Pic18Ep0Disjoint | USB_Stack/USB/usb.h:159-181 | Of any two listed PIC18 EP0 buffers, the earlier one ends at or before the later one begins. |
| Usb.Pic16Ep0Base | USB_Stack/USB/usb.h:101-157 | A PIC16 EP0 base address exists exactly for the buffers the policy lists, and every one lies in 0x20A0..0x21EF. |
| Usb.Pic16Ep0Layout | USB_Stack/USB/usb.h:101-157 | For every policy and every EP0_SIZE in {8, 16, 32, 64}, the PIC16 table: defines exactly the listed buffers; places each buffer at least EP0_SIZE after the previous one; and the last buffer ends at or below 0x21F0. |
| Usb.PackEpStat | USB_Stack/USB/usb.h:257-263 | The packed status byte has its five padding bits clear. |
| Usb.UnpackEpStat | USB_Stack/USB/usb.h:257-263 | Unpacking keeps exactly the three low bits: packing the result gives the byte with its padding bits cleared. |
| Usb.FlipToggle | USB_Stack/USB/usb_cdc_acm.c:218-230 | `Data_Toggle_Val ^= 1` changes the data toggle and keeps Halt and Last_PPB. |
| Usb.EpStatRoundTrip | USB_Stack/USB/usb.h:257-263 | Packing then unpacking gives back the record. Unpacking then packing gives back any byte whose padding bits are clear. |
| Usb.FlipToggleIsBitFlip | USB_Stack/USB/usb.h:257-263 | `Data_Toggle_Val ^= 1` flips bit 0 of the packed byte and nothing else. It changes the toggle, keeps Halt and Last_PPB, and applied twice is the identity. |
| Usb.DecodeUstat | USB_Stack/USB/usb.h:266-273 | Decoding keeps exactly PPBI, DIR and ENDP: re-encoding the result gives the byte with bits 0 and 7 cleared. |
| Usb.EncodeUstat | USB_Stack/USB/usb.h:266-273 | An encoded USTAT byte has bits 0 and 7 clear. |
| Usb.UstatRoundTrip | USB_Stack/USB/usb.h:266-273 | Encoding then decoding gives back the record. Decoding then encoding gives back every byte whose bits 0 and 7 are clear. |
| Usb.UstatDirection | USB_Stack/USB/usb.h:270 | The direction read from USTAT matches its DIR bit. |
| Usb.EpStatSize | USB_Stack/USB/usb.h:229 | Every `g_usb_ep_stat[ep][dir]` with `ep < NUM_ENDPOINTS` lies below EP_STAT_SIZE. |
| Usb.EpStatSizeMatchesArray | USB_Stack/USB/usb.h:283 | `EP_STAT_SIZE` (two per endpoint) is exactly the number of `g_usb_ep_stat` records: every (endpoint, direction) position is in range, distinct pairs get distinct positions, and every position below the size belongs to a pair. |
| CString.FirstNul | USB_Stack/Examples/CDC_Examples/CDC_Serial_Example.X/main.c:298 | The terminator index holds a zero, and no byte before it is zero. |
| CString.Text | USB_Stack/Examples/CDC_Examples/CDC_Serial_Example.X/main.c:298 | The text contains no zero, and the text followed by the terminator is a prefix of the string. |
| UsbCdcAcm.LineCodingSupported | USB_Stack/USB/usb_cdc_acm.c:243-245 | The accepted codings are exactly those whose last three wire bytes are 0 (one stop bit), 0 (no parity) and 8 (data bits). |
| UsbCdcAcm.LineCodingBytes | USB_Stack/USB/usb_cdc_acm.c:247-250 | A line-coding record is 7 bytes, with the three one-byte fields at offsets 4, 5 and 6. |
| UsbCdcAcm.ParseLineCoding | USB_Stack/USB/usb_cdc_acm.c:243-245 | The three one-byte fields of the parsed record are bytes 4, 5 and 6. |
| UsbCdcAcm.LineCodingRoundTrip | USB_Stack/USB/usb_cdc_acm.c:110-112 | The 7-byte layout (little-endian rate, then three bytes) is a bijection. So the bytes a SET_LINE_CODING data stage writes and the record the layer checks describe each other exactly. |
| UsbCdcAcm.ClassRequestSpec | USB_Stack/USB/usb_cdc_acm.c:93-139 | Only an accepted SET_LINE_CODING starts the line-coding wait. Every accepted request ends by selecting the next control stage or arming the status stage. |
| UsbCdcAcm.RamTarget | USB_Stack/USB/usb_cdc_acm.c:102 | The RAM area of a reply is one the reply points the transfer at. None means no pointer call at all. |
| UsbCdcAcm.UnknownRequestRefused | USB_Stack/USB/usb_cdc_acm.c:136-137 | Any request code other than the five CDC requests is refused with no call made. |
| UsbCdcAcm.RefusalSelectsNoStage | USB_Stack/USB/usb_cdc_acm.c:98-138 | A refused request selects no stage, sets no byte count and does not start the wait; at most it points the transfer at a buffer. An accepted request ends by selecting exactly one stage, and selects no stage before that. |
| UsbCdcAcm.DataStageStaysInBuffer | USB_Stack/USB/usb_cdc_acm.c:93-139 | In every reply, an OUT byte count is at most the size of the RAM area targeted (7, or 8 for the dummy buffer). An IN transfer offers exactly that area's size. |
| UsbCdcAcm.SetLineCodingRule | USB_Stack/USB/usb_cdc_acm.c:109-115 | SET_LINE_CODING is accepted exactly when Size_of_Structure is at most 7, and it starts the wait exactly when accepted. On acceptance the OUT count is Size_of_Structure and the last call selects DATA_OUT_STAGE. |
| UsbCdcAcm.SendEncapsulatedCommandRule | USB_Stack/USB/usb_cdc_acm.c:124-129 | SEND_ENCAPSULATED_COMMAND is accepted exactly when wLength is at most 8. On acceptance the calls are: point at the dummy buffer, OUT count wLength, DATA_OUT_STAGE. |
| UsbCdcAcm.SetControlLineStateRule | USB_Stack/USB/usb_cdc_acm.c:118-122 | SET_CONTROL_LINE_STATE is accepted exactly when wIndex is the communication interface. On acceptance it calls the line-state hook, then arms the IN status. |
| UsbCdcAcm.GetRequestsRule | USB_Stack/USB/usb_cdc_acm.c:101-106 | GET_LINE_CODING and GET_ENCAPSULATED_RESPONSE are always accepted and never start the wait. They set up a RAM IN transfer of 7 or 8 available bytes against wLength, and end in DATA_IN_STAGE. |
| UsbCdcAcm.CdcAcm.constructor | USB_Stack/USB/usb_cdc_acm.c:49-64 | The globals as the C runtime leaves them: wait false, byte count 0, last notification sent, none pending, no calls made. |
| UsbCdcAcm.CdcAcm.ArmComEpIn | USB_Stack/USB/usb_cdc_acm.c:76-79 | Arms COM IN for 10 bytes. |
| UsbCdcAcm.CdcAcm.ArmDataEpOut | USB_Stack/USB/usb_cdc_acm.c:82-85 | Arms DATA OUT for CDC_DAT_EP_SIZE bytes. |
| UsbCdcAcm.CdcAcm.ArmDataEpIn | USB_Stack/USB/usb_cdc_acm.c:88-91 | Arms DATA IN for the given count. |
| UsbCdcAcm.CdcAcm.ClassRequest | USB_Stack/USB/usb_cdc_acm.c:93-139 | The result, the calls made and the new wait flag are those of `ClassRequestSpec` for the current setup packet. |
| UsbCdcAcm.CdcAcm.ClearEpToggle | USB_Stack/USB/usb_cdc_acm.c:206-211 | All three toggles become 0; every other status bit is unchanged. |
| UsbCdcAcm.CdcAcm.Init | USB_Stack/USB/usb_cdc_acm.c:141-204 | Effects: the GET record holds the starting baud, stop bits and data bits with parity none (when compiled in); the three BDs have STAT 0 and their fixed buffer addresses; the three halt bits and toggles are 0; DATA OUT is armed for a full packet, and nothing else is called; the wait flag is false. |
| UsbCdcAcm.CdcAcm.TransactionTarget | USB_Stack/USB/usb_cdc_acm.c:215-233 | A transaction belongs to COM IN exactly when its endpoint is the COM endpoint. It belongs to DATA OUT or DATA IN exactly when its endpoint is the data endpoint and DIR is 0 or 1 respectively. |
| UsbCdcAcm.CdcAcm.Tasks | USB_Stack/USB/usb_cdc_acm.c:213-235 | Exactly the toggle of the transaction's endpoint direction flips, and all others are unchanged. That direction's hook is called. On DATA OUT the received count becomes the OUT BD's CNT. A transaction on another endpoint changes nothing. |
| UsbCdcAcm.CdcAcm.OutControlTasks | USB_Stack/USB/usb_cdc_acm.c:237-257 | Success exactly when SET_LINE_CODING is compiled in, a line coding was awaited, and it is 8N1. A pending wait is always cleared. On success the GET record equals the SET record and the hook is called. Otherwise the GET record is unchanged and nothing is called. |
| UsbCdcAcm.CdcAcm.NotificationTasks | USB_Stack/USB/usb_cdc_acm.c:260-268 | COM IN is armed exactly when the last notification has gone and one is pending, and then both flags become false. Otherwise nothing changes. |
| UsbCdcAcm.SetThenGetLineCoding | USB_Stack/USB/usb_cdc_acm.c:247-250 | After a SET_LINE_CODING data stage delivers 7 bytes, the set succeeds exactly when they encode 8N1. A following GET_LINE_CODING then transfers a record whose bytes are exactly those 7. |
| CdcSerialExample.Packets | USB_Stack/Examples/CDC_Examples/CDC_Serial_Example.X/main.c:295-305 | The packets serial_print_string sends: there are none exactly when the text is empty. |
| CdcSerialExample.ArmsFor | USB_Stack/Examples/CDC_Examples/CDC_Serial_Example.X/main.c:314-319 | One DATA IN arm per packet, in order, each with that packet's length. |
| CdcSerialExample.PacketsConcat | USB_Stack/Examples/CDC_Examples/CDC_Serial_Example.X/main.c:295-305 | The packets, concatenated, are exactly the string up to its terminator. |
| CdcSerialExample.PacketsSizes | USB_Stack/Examples/CDC_Examples/CDC_Serial_Example.X/main.c:301-304 | Every packet but the last holds CDC_DAT_EP_SIZE bytes, and every packet holds 1 to CDC_DAT_EP_SIZE bytes, so none is empty. |
| CdcSerialExample.PacketsCount | USB_Stack/Examples/CDC_Examples/CDC_Serial_Example.X/main.c:298-304 | The number of packets is the text length divided by CDC_DAT_EP_SIZE, rounded up. An empty text gives none. |
| CdcSerialExample.PacketsAppend | USB_Stack/Examples/CDC_Examples/CDC_Serial_Example.X/main.c:302-304 | Whole packets followed by 1 to CDC_DAT_EP_SIZE more bytes are sent as the packets of the first part, then those bytes as one packet. |
| CdcSerialExample.IndexWraps | USB_Stack/Examples/CDC_Examples/CDC_Serial_Example.X/main.c:300-302 | After `i++`, `i %= CDC_DAT_EP_SIZE` is 0 exactly when the buffer has just been filled, and leaves `i` as it was otherwise. |
| CdcSerialExample.SentTail | USB_Stack/Examples/CDC_Examples/CDC_Serial_Example.X/main.c:302-304 | A send at position k, after whole packets, extends both the packet list and the arm calls by that one packet. |
| CdcSerialExample.SerialApp.constructor | USB_Stack/Examples/CDC_Examples/CDC_Serial_Example.X/main.c:110-111 | The sent flag starts true, the received flag false. |
| CdcSerialExample.SerialApp.CdcDataOut | USB_Stack/Examples/CDC_Examples/CDC_Serial_Example.X/main.c:280-283 | Sets the received flag. |
| CdcSerialExample.SerialApp.CdcDataIn | USB_Stack/Examples/CDC_Examples/CDC_Serial_Example.X/main.c:285-288 | Sets the sent flag. |
| CdcSerialExample.SerialApp.Transaction | USB_Stack/USB/usb_cdc_acm.c:213-235 | On a CDC endpoint, exactly that endpoint direction's data toggle flips and its hook is logged; on any other endpoint the status records and the log are unchanged. A completed DATA OUT transaction raises the received flag and latches the count. A completed DATA IN transaction raises the sent flag. Nothing else touches the flags. |
| CdcSerialExample.SerialApp.Send | USB_Stack/Examples/CDC_Examples/CDC_Serial_Example.X/main.c:314-319 | Clears the sent flag, arms DATA IN with `amount`, and the packet carries the first `amount` bytes of the IN buffer. |
| CdcSerialExample.SerialApp.Receive | USB_Stack/Examples/CDC_Examples/CDC_Serial_Example.X/main.c:321-326 | Consumes the received flag and re-arms DATA OUT for a full packet. |
| CdcSerialExample.SerialApp.SerialEcho | USB_Stack/Examples/CDC_Examples/CDC_Serial_Example.X/main.c:307-312 | Re-arms DATA OUT, then sends exactly g_cdc_num_data_out bytes: the received bytes. The rest of the IN buffer is untouched. |
| CdcSerialExample.SerialApp.SerialPrintString | USB_Stack/Examples/CDC_Examples/CDC_Serial_Example.X/main.c:295-305 | The packets sent are `Packets(text, CDC_DAT_EP_SIZE)`, and the arm calls are one per packet, with its length. The sent flag ends false unless the text is empty. |
| CdcSerialExample.SerialApp.PutByte | USB_Stack/Examples/CDC_Examples/CDC_Serial_Example.X/main.c:300-302 | One pass of the loop: the write index stays below CDC_DAT_EP_SIZE, so every write is in bounds. The index becomes `(i + 1) % CDC_DAT_EP_SIZE`, and the buffer is sent exactly when that wraps to 0. |
| CdcSerialExample.SerialApp.StoreByte | USB_Stack/Examples/CDC_Examples/CDC_Serial_Example.X/main.c:300-301 | Stores the byte at the write index and advances the index modulo CDC_DAT_EP_SIZE. When the index wraps to 0, the buffer holds exactly the next whole packet of the text. |
| CdcSerialExample.SerialApp.Flush | USB_Stack/Examples/CDC_Examples/CDC_Serial_Example.X/main.c:302 | Sending a full buffer appends that packet and its arm call, clears the sent flag, and leaves the loop state at an empty buffer. |
| CdcSerialExample.SerialApp.FlushRest | USB_Stack/Examples/CDC_Examples/CDC_Serial_Example.X/main.c:304 | After the loop, the buffered remainder is sent if non-empty. The packets and arm calls then cover the whole text, and the sent flag is cleared exactly when something was buffered. |
| RubberDuckyExample.Events | USB_Stack/Examples/HID_Examples/HID_Keyboard_Examples/HID_RubberDucky_Example.X/main.c:276-282 | The key events of the first i characters: a press for each, so between i and 2i events. |
| RubberDuckyExample.PrintKeysEvents | USB_Stack/Examples/HID_Examples/HID_Keyboard_Examples/HID_RubberDucky_Example.X/main.c:273-284 | print_keys' whole trace: between len + 1 and 2 len + 1 events, the last a release. |
| RubberDuckyExample.KeyReports | USB_Stack/Examples/HID_Examples/HID_Keyboard_Examples/HID_RubberDucky_Example.X/main.c:258-262 | One keyboard report per event, carrying `ascii_2_key`'s modifier and key code for a press, (0, 0) for a release, and the report's other bytes unchanged. |
| RubberDuckyExample.KeyReportsAppend | USB_Stack/Examples/HID_Examples/HID_Keyboard_Examples/HID_RubberDucky_Example.X/main.c:279-283 | One more event adds one more report at the end. |
| RubberDuckyExample.EventsStep | USB_Stack/Examples/HID_Examples/HID_Keyboard_Examples/HID_RubberDucky_Example.X/main.c:278-281 | One more character of the text adds exactly its `CharReports` to the report list. |
| RubberDuckyExample.PrintStep | USB_Stack/Examples/HID_Examples/HID_Keyboard_Examples/HID_RubberDucky_Example.X/main.c:276-281 | A loop pass at a non-zero byte keeps the uint8_t index inside the text and extends the reports by that character's reports. |
| RubberDuckyExample.PrintEnd | USB_Stack/Examples/HID_Examples/HID_Keyboard_Examples/HID_RubberDucky_Example.X/main.c:276-283 | The loop stops exactly at the terminator, and the final release completes the trace. |
| RubberDuckyExample.PressesAppend | USB_Stack/Examples/HID_Examples/HID_Keyboard_Examples/HID_RubberDucky_Example.X/main.c:279 | A press adds its character to the typed text; a release adds nothing. |
| RubberDuckyExample.EventsLast | USB_Stack/Examples/HID_Examples/HID_Keyboard_Examples/HID_RubberDucky_Example.X/main.c:279-281 | After a character, the last event is its press, or a release preceded by its press when the next byte repeats it. |
| RubberDuckyExample.EventsPresses | USB_Stack/Examples/HID_Examples/HID_Keyboard_Examples/HID_RubberDucky_Example.X/main.c:276-280 | The presses so far are exactly the characters so far, in order. |
| RubberDuckyExample.EventsLength | USB_Stack/Examples/HID_Examples/HID_Keyboard_Examples/HID_RubberDucky_Example.X/main.c:276-281 | There is one event per character plus one per adjacent equal pair, looking one byte ahead. |
| RubberDuckyExample.EventsSeparated | USB_Stack/Examples/HID_Examples/HID_Keyboard_Examples/HID_RubberDucky_Example.X/main.c:281 | No two presses in a row are of the same character. Every inner release sits between two presses of the same character. |
| RubberDuckyExample.PrintKeysTrace | USB_Stack/Examples/HID_Examples/HID_Keyboard_Examples/HID_RubberDucky_Example.X/main.c:273-284 | `print_keys` presses exactly the text's characters, in order. Its length is len + (equal adjacent pairs) + 1, and the last report is a release. No character is pressed twice in a row without a release, and every non-final release separates two equal characters. |
| RubberDuckyExample.PrintKeysEmpty | USB_Stack/Examples/HID_Examples/HID_Keyboard_Examples/HID_RubberDucky_Example.X/main.c:283 | An empty string sends just one release. |
| RubberDuckyExample.NoReleaseBetweenDistinctBytes | USB_Stack/Examples/HID_Examples/HID_Keyboard_Examples/HID_RubberDucky_Example.X/main.c:281 | The repeat test compares raw bytes. Two different non-zero bytes in a row ('a', 'A') get no release between them, whatever keys they map to. |
| RubberDuckyExample.NextOutSlot | USB_Stack/Examples/HID_Examples/HID_Keyboard_Examples/HID_RubberDucky_Example.X/main.c:302-307 | A ping-pong buffer is chosen exactly under PINGPONG_1_15 and PINGPONG_ALL_EP, and it is the one opposite Last_PPB: EVEN after ODD, ODD otherwise. |
| RubberDuckyExample.NextOutSlotAlternates | USB_Stack/Examples/HID_Examples/HID_Keyboard_Examples/HID_RubberDucky_Example.X/main.c:302-304 | If Last_PPB follows the buffer just armed, successive `hid_out` calls alternate between the two buffers. |
| RubberDuckyExample.KeyboardApp.constructor | USB_Stack/Examples/HID_Examples/HID_Keyboard_Examples/HID_RubberDucky_Example.X/main.c:257-270 | The starting reports g_hid_in_report1 and g_hid_in_report2, which send_key and send_consumer update, are parameters: their declarations are not part of this model. The application starts with no reports sent and no OUT buffer armed. |
| RubberDuckyExample.KeyboardApp.AsciiToKey | USB_Stack/Examples/HID_Examples/HID_Keyboard_Examples/HID_RubberDucky_Example.X/main.c:278 | g_key_result becomes the table's entry for the character. |
| RubberDuckyExample.KeyboardApp.SendKey | USB_Stack/Examples/HID_Examples/HID_Keyboard_Examples/HID_RubberDucky_Example.X/main.c:258-264 | Only Modifiers and Keycode of report 1 change, and it is sent as report 0. |
| RubberDuckyExample.KeyboardApp.SendConsumer | USB_Stack/Examples/HID_Examples/HID_Keyboard_Examples/HID_RubberDucky_Example.X/main.c:266-271 | Only Consumer_Byte of report 2 changes, and it is sent as report 1. |
| RubberDuckyExample.KeyboardApp.PrintKeys | USB_Stack/Examples/HID_Examples/HID_Keyboard_Examples/HID_RubberDucky_Example.X/main.c:273-284 | The reports sent are `KeyReports(PrintKeysEvents(s))`. Report 1 ends as all keys up. g_key_result holds the last character's key. A string whose terminator lies beyond what a uint8_t index reaches is excluded. |
| RubberDuckyExample.KeyboardApp.TypeChar | USB_Stack/Examples/HID_Examples/HID_Keyboard_Examples/HID_RubberDucky_Example.X/main.c:278-281 | One pass of the loop sends exactly `CharReports`: the character's key report, then a release when the next byte is the same character. g_key_result ends as that character's key. |
| RubberDuckyExample.KeyboardApp.HidOut | USB_Stack/Examples/HID_Examples/HID_Keyboard_Examples/HID_RubberDucky_Example.X/main.c:296-308 | Arms the OUT buffer `NextOutSlot` chooses for the current Last_PPB. |

## Left out

- Internals of `usb.c` are not part of this model. Each call into it is an `Action` recorded with its arguments, and nothing is assumed about what it does. This covers `usb_arm_endpoint`, `usb_stall_ep`, `usb_set_ram_ptr`, `usb_setup_in_control_transfer`, `usb_in_control_transfer`, `usb_set_control_stage`, `usb_set_num_out_control_bytes` and `usb_arm_in_status`.
- The setup packet, and which RAM areas the control transfer reads or writes, belong to `usb.c`. `SetThenGetLineCoding` stands in for it by writing the 7 data-stage bytes into the SET record, as that code would.
- Busy-wait loops on interrupt-written flags are not modelled:
  - the waits in `send`, `receive`, `send_key` and `send_consumer`;
  - both `main` loops;
  - `isr`.

  Their point is concurrency between interrupt and foreground code. `send` is modelled as arming the endpoint and recording the packet. Consequently `Send` leaves the sent flag false: no wait for `cdc_data_in` is modelled. `SerialEcho` copies the OUT buffer after re-arming DATA OUT, as the source does. A packet arriving in between is not modelled.
- CdcSerialExample.SerialApp.SerialEcho: requires `g_cdc_num_data_out <= CDC_DAT_EP_SIZE`. The hardware's CNT after a DATA OUT transaction armed with CDC_DAT_EP_SIZE is taken to respect that size.
- `usb_ram_copy` is modelled as an element-wise array copy of `g_cdc_num_data_out` bytes.
- Hardware setup and timing are not modelled: `example_init`, `flash_led`, `__delay_ms`, the `UEPbits` writes in `cdc_init`, and the RTS/DTR/DCD pin logic.
- The CAPS_LOCK LED in `hid_out` is not modelled, and `hid_out`'s `report_num` argument is otherwise unused.
- The `USE_DTR`/`USE_DCD` configuration is not modelled:
  - the serial-state notification set-up in `cdc_init`, which misspells `g_cdc_serial_state` twice and so cannot compile;
  - the COM IN arm that configuration adds to `cdc_init`;
  - `g_cdc_serial_state`.

  UsbCdcAcm.CdcAcm.NotificationTasks is still modelled on its own, with the notification flags' initial values from their declarations. In the source it exists only in that configuration.
- `ascii_2_key`'s table, `hid_send_report` and `hid_arm_ep_out` are not part of this model.
  - The table is a parameter (`asciiToKey`).
  - A sent report is recorded with a copy of the report.
  - An armed OUT buffer is recorded by its ping-pong slot.
- The HID report types and the `ODD` value are not part of this model:
  - Bytes of reports 1 and 2 other than Modifiers, Keycode and Consumer_Byte are an opaque `others` sequence.
  - `ODD` is taken to be a Last_PPB of 1.
- The descriptor tables (`usb_descriptors.c`) are constant data and are not modelled.
- The fixed script at the start of the RubberDucky `main` is not modelled: it opens the run dialog with `send_key`/`send_consumer` calls and delays. Its key constants come from a header that is not part of this model.
- Size_of_Structure is the wLength field of the setup packet. The CDC request struct overlays the 8-byte setup packet at the same address.
- CDC_DAT_EP_SIZE is a parameter in 1..64, and the endpoint and interface numbers are parameters. The COM and data endpoints must differ, because they label two cases of one switch.
- CDC_COM_EP_SIZE is a parameter that must be at least 10. `g_cdc_com_ep_in` has CDC_COM_EP_SIZE bytes, and `cdc_arm_com_ep_in` always arms 10. The source does not check this, so a smaller CDC_COM_EP_SIZE would let the hardware run past the buffer. That configuration is excluded.
- RubberDuckyExample.KeyboardApp.PrintKeys: requires the terminator within the first 256 bytes. On a longer text the `uint8_t` index wraps from 255 to 0. The repeat test then reads `str[-1]`, and the loop restarts at `str[0]` and never ends. This looping is not modelled, and the requires is what lets the loop's termination be proved.
- CdcSerialExample.SerialApp.SerialEcho: re-arms DATA OUT in `receive` before `usb_ram_copy` reads `g_cdc_dat_ep_out`. From the re-arm on, the hardware owns that buffer, so a packet arriving before the copy would overwrite the bytes being echoed. This breaks the rule that firmware never touches an armed buffer. The contract assumes the OUT buffer is unchanged between the arm and the copy, which holds only if no packet arrives in between.
- print_keys' repeat test compares raw characters. A letter followed by its capital gets no release between them (`NoReleaseBetweenDistinctBytes`). If ascii_2_key gives both the same key code, the host sees one key press. The table is not part of this model, so this is stated on the bytes.
- UsbCdcAcm.CdcAcm.Init: states only the effects listed in the model table; the UEP register writes are left out.
